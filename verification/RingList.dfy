/**
 * The in-memory ring: a skip list of virtual nodes ordered by score, with the replica counts and
 * the data-key index beside it. Whatever heights the nodes are given, it stands for a RingState.
 */
module RingList {
  import opened RingSpec
  import opened RingOwnership

  function Nulls(count: nat): (r: seq<VirtualNode?>)
    ensures |r| == count && forall i :: 0 <= i < count ==> r[i] == null
  {
    seq(count, _ => null)
  }

  class VirtualNode {
    const score: Score
    /** The number of levels the node is linked on; not used for the root. */
    ghost const height: nat
    var nodeIDs: seq<string>
    var nexts: seq<VirtualNode?>

    constructor (score: Score, nodeIDs: seq<string>, levels: nat)
      ensures this.score == score && this.height == levels
      ensures this.nodeIDs == nodeIDs && this.nexts == Nulls(levels)
    {
      this.score, this.height, this.nodeIDs := score, levels, nodeIDs;
      this.nexts := Nulls(levels);
    }
  }

  /** The nodes on the list, by score. */
  type Index = map<int, VirtualNode>

  /** `next` is the first node after `from` that reaches the level, or null if there is none. */
  ghost predicate Link(at: Index, from: int, level: nat, next: VirtualNode?) {
    if next == null then forall s :: s in at && from < s ==> at[s].height <= level
    else
      && next.score in at && at[next.score] == next && from < next.score && level < next.height
      && forall s :: s in at && from < s < next.score ==> at[s].height <= level
  }

  ghost predicate IndexOk(at: Index) {
    forall s :: s in at ==> at[s].score == s && 0 < at[s].height
  }

  // ------------------------------------------------------------ what links say

  /** On the bottom level no node lies between a node and the next. */
  lemma BottomLink(at: Index, from: int, next: VirtualNode?)
    requires IndexOk(at) && Link(at, from, 0, next)
    ensures forall s :: s in at && from < s ==> next != null && next.score <= s
  {
  }

  /** A new node shows up on the links that jump over it on the levels it reaches, and only there. */
  lemma LinkAdded(at: Index, from: int, level: nat, next: VirtualNode?, n: VirtualNode)
    requires IndexOk(at) && n.score !in at && Link(at, from, level, next)
    ensures n.height <= level || n.score <= from ==> Link(at[n.score := n], from, level, next)
    ensures level < n.height && from < n.score && next != null && next.score < n.score ==> Link(at[n.score := n], from, level, next)
    ensures level < n.height && from < n.score && (next == null || n.score < next.score) ==>
              Link(at[n.score := n], from, level, n) && Link(at[n.score := n], n.score, level, next)
  {
  }

  /** A node taken off leaves its successor in its place. */
  lemma LinkDropped(at: Index, from: int, level: nat, next: VirtualNode?, n: VirtualNode)
    requires IndexOk(at) && n.score in at && at[n.score] == n && Link(at, from, level, next)
    ensures next != n ==> Link(at - {n.score}, from, level, next)
    ensures forall after :: next == n && Link(at, n.score, level, after) ==> Link(at - {n.score}, from, level, after)
  {
  }

  /** The successors of every node by level, under its score; the root's are under -1. */
  type Links = map<int, seq<VirtualNode?>>

  /** Everyone who reaches the level is linked to the right successor on it. */
  ghost predicate LevelOk(at: Index, links: Links, level: nat) {
    forall k :: k in links && level < |links[k]| ==> Link(at, k, level, links[k][level])
  }

  ghost predicate Shaped(at: Index, links: Links) {
    && IndexOk(at) && links.Keys == at.Keys + {-1}
    && (forall s :: s in at ==> |links[s]| == at[s].height)
  }

  /** A skip list: as many levels as the highest node, each of them complete. */
  ghost predicate ListOk(at: Index, links: Links) {
    && Shaped(at, links)
    && (forall s :: s in at ==> at[s].height <= |links[-1]|)
    && (forall l: nat :: l < |links[-1]| ==> LevelOk(at, links, l))
    && (forall l: nat :: l < |links[-1]| ==> links[-1][l] != null)
  }

  lemma LevelAbove(at: Index, links: Links, l: nat, n: VirtualNode, nexts: seq<VirtualNode?>)
    requires Shaped(at, links) && n.score !in at && |nexts| == n.height <= l && LevelOk(at, links, l)
    ensures LevelOk(at[n.score := n], links[n.score := nexts], l)
  {
    forall k | k in links && l < |links[k]| ensures Link(at[n.score := n], k, l, links[k][l]) {
      LinkAdded(at, k, l, links[k][l], n);
    }
  }

  /** Putting a node between k and its successor completes one level. */
  lemma LevelSpliced(at: Index, links: Links, level: nat, n: VirtualNode, nexts: seq<VirtualNode?>, k: int)
    requires Shaped(at, links) && n.score !in at && level < |nexts| == n.height && LevelOk(at, links, level)
    requires k in links && level < |links[k]| && k < n.score
    requires links[k][level] != null ==> n.score < links[k][level].score
    ensures LevelOk(at[n.score := n], links[k := links[k][level := n]][n.score := nexts[level := links[k][level]]], level)
  {
    var at1 := at[n.score := n];
    LinkAdded(at, k, level, links[k][level], n);
    forall j | j in links && j != k && level < |links[j]| ensures Link(at1, j, level, links[j][level]) {
      LinkAdded(at, j, level, links[j][level], n);
      assert j != n.score && k != n.score;
      if j < n.score { NotPast(at, links, level, n, k, j); }
    }
  }

  /** Only k's link jumps over the new score. */
  lemma NotPast(at: Index, links: Links, level: nat, n: VirtualNode, k: int, j: int)
    requires Shaped(at, links) && LevelOk(at, links, level) && n.score !in at
    requires k in links && level < |links[k]| && k < n.score && (links[k][level] != null ==> n.score < links[k][level].score)
    requires j in links && j != k && level < |links[j]| && j < n.score
    ensures links[j][level] != null && links[j][level].score < n.score
  {
    assert Link(at, k, level, links[k][level]) && Link(at, j, level, links[j][level]);
    assert j in at ==> level < at[j].height;
    assert k in at ==> level < at[k].height;
  }

  /** Taking a node out from behind k completes one level without it. */
  lemma LevelUnlinked(at: Index, links: Links, level: nat, n: VirtualNode, k: int)
    requires Shaped(at, links) && n.score in at && at[n.score] == n && LevelOk(at, links, level)
    requires k in links && level < |links[k]| && k < n.score
    requires links[k][level] != null ==> n.score <= links[k][level].score
    ensures links[k][level] == n ==> level < n.height
    ensures links[k][level] == n ==>
              LevelOk(at - {n.score}, links[k := links[k][level := links[n.score][level]]] - {n.score}, level)
    ensures links[k][level] != n ==> LevelOk(at - {n.score}, links - {n.score}, level)
  {
    assert Link(at, k, level, links[k][level]);
    forall j | j in links && level < |links[j]|
      ensures links[j][level] != n ==> Link(at - {n.score}, j, level, links[j][level])
      ensures links[j][level] == n ==> j == k
    {
      LinkDropped(at, j, level, links[j][level], n);
      assert j in at ==> level < at[j].height;
      assert k in at ==> level < at[k].height;
    }
    if links[k][level] == n {
      LinkDropped(at, k, level, n, n);
      assert Link(at, n.score, level, links[n.score][level]);
    }
  }

  /** A link of one level does not matter to another. */
  lemma OtherLevel(at: Index, links: Links, level: nat, l: nat, k: int, next: VirtualNode?)
    requires l != level && k in links && level < |links[k]|
    ensures LevelOk(at, links[k := links[k][level := next]], l) <==> LevelOk(at, links, l)
  {
    var links1 := links[k := links[k][level := next]];
    assert forall j :: j in links && l < |links[j]| ==> links1[j][l] == links[j][l];
    assert forall j :: j in links ==> |links1[j]| == |links[j]|;
  }

  ghost predicate LevelWith(at: Index, links: Links, n: VirtualNode, nexts: seq<VirtualNode?>, level: nat) {
    LevelOk(at[n.score := n], links[n.score := nexts], level)
  }

  /** While a node is spliced in: its levels from `level` up are complete with it, the others without. */
  ghost predicate Half(at: Index, links: Links, n: VirtualNode, nexts: seq<VirtualNode?>, level: nat) {
    && Shaped(at, links) && n.score !in at && level <= |nexts| == n.height && 0 < n.height <= |links[-1]|
    && (forall s :: s in at ==> at[s].height <= |links[-1]|)
    && (forall l: nat :: l < level ==> LevelOk(at, links, l))
    && (forall l: nat :: level <= l < |links[-1]| ==> LevelWith(at, links, n, nexts, l))
    && (forall l: nat :: level <= l < |links[-1]| ==> links[-1][l] != null)
  }

  lemma HalfShape(at: Index, links: Links, n: VirtualNode, nexts: seq<VirtualNode?>, level: nat)
    requires Half(at, links, n, nexts, level)
    ensures Shaped(at, links) && -1 in links && level <= |links[-1]| && level <= |nexts|
  {
  }

  lemma HalfFresh(at: Index, links: Links, n: VirtualNode, nexts: seq<VirtualNode?>, level: nat)
    requires Half(at, links, n, nexts, level)
    ensures n.score !in at
  {
  }

  lemma HalfLevel(at: Index, links: Links, n: VirtualNode, nexts: seq<VirtualNode?>, level: nat)
    requires Half(at, links, n, nexts, level + 1)
    ensures Shaped(at, links) && LevelOk(at, links, level) && level < |nexts|
  {
  }

  lemma HalfStep(at: Index, links: Links, n: VirtualNode, nexts: seq<VirtualNode?>, level: nat, k: int)
    requires Half(at, links, n, nexts, level + 1)
    requires k in links && level < |links[k]| && k < n.score
    requires links[k][level] != null ==> n.score <= links[k][level].score
    ensures Half(at, links[k := links[k][level := n]], n, nexts[level := links[k][level]], level)
  {
    hide Link, LevelOk;
    assert LevelOk(at, links, level);
    StrictNext(at, links, level, n, k);
    var at1, top := at[n.score := n], |links[-1]|;
    var links1, nexts1 := links[k := links[k][level := n]], nexts[level := links[k][level]];
    LevelSpliced(at, links, level, n, nexts, k);
    assert links1[-1][level] != null by { FirstLink(at, links, level, n, k); }
    var mid := links[n.score := nexts];
    assert mid[k := mid[k][level := n]][n.score := nexts1] == links1[n.score := nexts1];
    forall l: nat | l < level ensures LevelOk(at, links1, l) { OtherLevel(at, links, level, l, k, n); }
    forall l: nat | level < l < top ensures LevelWith(at, links1, n, nexts1, l) {
      assert LevelWith(at, links, n, nexts, l);
      OtherLevel(at1, mid, level, l, k, n);
      OtherLevel(at1, mid[k := mid[k][level := n]], level, l, n.score, links[k][level]);
    }
  }

  lemma StrictNext(at: Index, links: Links, level: nat, n: VirtualNode, k: int)
    requires LevelOk(at, links, level) && k in links && level < |links[k]| && n.score !in at
    requires links[k][level] != null ==> n.score <= links[k][level].score
    ensures links[k][level] != null ==> n.score < links[k][level].score
  {
    assert Link(at, k, level, links[k][level]);
  }

  lemma FirstLink(at: Index, links: Links, level: nat, n: VirtualNode, k: int)
    requires Shaped(at, links) && LevelOk(at, links, level) && k in links && level < |links[k]| && level < |links[-1]|
    ensures k != -1 ==> links[-1][level] != null
  {
    assert Link(at, -1, level, links[-1][level]);
  }

  lemma HalfDone(at: Index, links: Links, n: VirtualNode, nexts: seq<VirtualNode?>)
    requires Half(at, links, n, nexts, 0)
    ensures ListOk(at[n.score := n], links[n.score := nexts])
  {
    hide Link, LevelOk;
    var at1, links1 := at[n.score := n], links[n.score := nexts];
    forall l: nat | l < |links1[-1]| ensures LevelOk(at1, links1, l) { assert LevelWith(at, links, n, nexts, l); }
  }

  /** A list with room for the node's levels is ready for the splice. */
  lemma HalfStart(at: Index, links: Links, n: VirtualNode, nexts: seq<VirtualNode?>)
    requires ListOk(at, links) && n.score !in at && |nexts| == n.height && 0 < n.height
    ensures var more := if |links[-1]| < n.height then Nulls(n.height - |links[-1]|) else [];
            Half(at, links[-1 := links[-1] + more], n, nexts, n.height)
  {
    var more := if |links[-1]| < n.height then Nulls(n.height - |links[-1]|) else [];
    var links1 := links[-1 := links[-1] + more];
    forall l: nat | l < |links1[-1]| ensures LevelOk(at, links1, l) {
      forall k | k in links1 && l < |links1[k]| ensures Link(at, k, l, links1[k][l]) {
        if l < |links[-1]| { assert LevelOk(at, links, l); }
      }
    }
    forall l: nat | n.height <= l < |links1[-1]| ensures LevelWith(at, links1, n, nexts, l) {
      LevelAbove(at, links1, l, n, nexts);
    }
  }

  ghost predicate LevelWithout(at: Index, links: Links, score: int, level: nat) {
    LevelOk(at - {score}, links - {score}, level)
  }

  /** While a node is taken out: its levels from `level` up are complete without it, the others with it. */
  ghost predicate Unlinking(at: Index, links: Links, n: VirtualNode, level: nat) {
    && Shaped(at, links) && n.score in at && at[n.score] == n && level <= |links[-1]|
    && (forall s :: s in at ==> at[s].height <= |links[-1]|)
    && (forall l: nat :: l < level ==> LevelOk(at, links, l))
    && (forall l: nat :: level <= l < |links[-1]| ==> LevelWithout(at, links, n.score, l))
  }

  lemma UnlinkingLevel(at: Index, links: Links, n: VirtualNode, level: nat, k: int)
    requires Unlinking(at, links, n, level + 1)
    ensures Shaped(at, links) && LevelOk(at, links, level)
  {
  }

  /** The level does not hold the node: it is complete without it as it stands. */
  lemma UnlinkingSkip(at: Index, links: Links, n: VirtualNode, level: nat, k: int)
    requires Unlinking(at, links, n, level + 1) && k in links && level < |links[k]| && k < n.score
    requires links[k][level] != null ==> n.score < links[k][level].score
    ensures Unlinking(at, links, n, level)
  {
    assert links[k][level] != n;
    LevelUnlinked(at, links, level, n, k);
    hide LevelOk, Link;
    assert LevelWithout(at, links, n.score, level);
  }

  lemma UnlinkingStep(at: Index, links: Links, n: VirtualNode, level: nat, k: int)
    requires Unlinking(at, links, n, level + 1) && k in links && level < |links[k]| && k < n.score
    requires links[k][level] == n
    ensures level < |links[n.score]|
    ensures Unlinking(at, links[k := links[k][level := links[n.score][level]]], n, level)
  {
    LevelUnlinked(at, links, level, n, k);
    var after := links[n.score][level];
    var links1 := links[k := links[k][level := after]];
    hide LevelOk, Link;
    assert LevelWithout(at, links1, n.score, level);
    forall l: nat | l < level ensures LevelOk(at, links1, l) { OtherLevel(at, links, level, l, k, after); }
    var rest: Links := links - {n.score};
    assert rest[k := rest[k][level := after]] == links1 - {n.score};
    forall l: nat | level < l < |links[-1]| ensures LevelWithout(at, links1, n.score, l) {
      assert LevelWithout(at, links, n.score, l);
      OtherLevel(at - {n.score}, rest, level, l, k, after);
    }
  }

  /** Every level is complete; the root's levels may be more than the nodes need. */
  ghost predicate Complete(at: Index, links: Links) {
    && Shaped(at, links)
    && (forall s :: s in at ==> at[s].height <= |links[-1]|)
    && (forall l: nat :: l < |links[-1]| ==> LevelOk(at, links, l))
  }

  lemma UnlinkingDone(at: Index, links: Links, n: VirtualNode)
    requires Unlinking(at, links, n, 0)
    ensures Complete(at - {n.score}, links - {n.score})
  {
    hide LevelOk, Link;
    var at1: Index, links1: Links := at - {n.score}, links - {n.score};
    forall l: nat | l < |links1[-1]| ensures LevelOk(at1, links1, l) { assert LevelWithout(at, links, n.score, l); }
  }

  /** Cutting the root's levels at the first empty one leaves a skip list. */
  lemma Trimmed(at: Index, links: Links, top: nat)
    requires Complete(at, links) && top <= |links[-1]|
    requires forall l :: 0 <= l < top ==> links[-1][l] != null
    requires top < |links[-1]| ==> links[-1][top] == null
    ensures ListOk(at, links[-1 := links[-1][..top]])
  {
    var links1 := links[-1 := links[-1][..top]];
    forall l: nat | l < top ensures LevelOk(at, links1, l) {
      assert LevelOk(at, links, l);
      forall k | k in links1 && l < |links1[k]| ensures Link(at, k, l, links1[k][l]) { assert links1[k][l] == links[k][l]; }
    }
    if top < |links[-1]| {
      assert LevelOk(at, links, top);
      assert Link(at, -1, top, null);
    }
  }

  class SkiplistHashRing {
    var root: VirtualNode
    var nodeToReplicas: map<string, nat>
    var nodeToDataKey: map<string, set<string>>
    ghost var at: Index

    ghost function Repr(): set<object> reads this { {this, root} + at.Values }

    ghost function Links(): Links reads this, root, at.Values {
      map k | k in at.Keys + {-1} :: if k == -1 then root.nexts else at[k].nexts
    }

    ghost predicate Valid() reads this, root, at.Values {
      root !in at.Values && ListOk(at, Links())
    }

    ghost function Slots(): Slots reads this, root, at.Values {
      map s: Score | s in at :: at[s].nodeIDs
    }

    /** What the ring stands for. */
    ghost function State(): RingState reads this, root, at.Values {
      RingState(Slots(), nodeToReplicas, nodeToDataKey)
    }

    ghost predicate On(n: VirtualNode) reads this {
      n == root || (n.score in at && at[n.score] == n)
    }

    ghost function Key(n: VirtualNode): int reads this {
      if n == root then -1 else n.score
    }

    lemma Level(l: nat)
      requires Valid() && l < |root.nexts|
      ensures Shaped(at, Links()) && LevelOk(at, Links(), l) && Link(at, -1, l, root.nexts[l])
      ensures root.nexts[l] != null && root.nexts[l].score in at
    {
      assert Links()[-1] == root.nexts;
    }

    constructor ()
      ensures Valid() && fresh(Repr()) && State() == RingState(map[], map[], map[])
    {
      root := new VirtualNode(0, [], 0);
      nodeToReplicas, nodeToDataKey, at := map[], map[], map[];
    }

    /** Walks one level up to the last node before the score. */
    method Walk(from: VirtualNode, level: nat, score: int) returns (move: VirtualNode)
      requires Shaped(at, Links()) && LevelOk(at, Links(), level) && On(from) && level < |from.nexts| && Key(from) < score
      ensures On(move) && level < |move.nexts| && Key(from) <= Key(move) < score
      ensures Link(at, Key(move), level, move.nexts[level])
      ensures move.nexts[level] != null ==> score <= move.nexts[level].score
    {
      move := from;
      while move.nexts[level] != null && move.nexts[level].score < score
        invariant On(move) && level < |move.nexts| && Key(from) <= Key(move) < score
        invariant Link(at, Key(move), level, move.nexts[level])
        decreases CIRCLE - Key(move)
      {
        move := move.nexts[level];
      }
    }

    /** Walks all levels, from the top: the last node before the score. */
    method WalkDown(score: int) returns (move: VirtualNode)
      requires Valid() && at != map[] && -1 < score
      ensures On(move) && Key(move) < score && 0 < |move.nexts|
      ensures move.nexts[0] != null ==> score <= move.nexts[0].score && On(move.nexts[0]) && Key(move) < move.nexts[0].score && move.nexts[0] != root
      ensures forall s :: s in at && Key(move) < s ==> move.nexts[0] != null && move.nexts[0].score <= s
    {
      move := root;
      assert |root.nexts| > 0 by { var s :| s in at; assert Links()[-1] == root.nexts; }
      hide ListOk, Link;
      for level := |root.nexts| downto 0
        invariant Valid() && On(move) && Key(move) < score && level <= |move.nexts| && 0 < |move.nexts|
        invariant level == 0 ==> Link(at, Key(move), 0, move.nexts[0]) && (move.nexts[0] != null ==> score <= move.nexts[0].score)
      {
        Level(level);
        move := Walk(move, level, score);
      }
      BottomLink(at, Key(move), move.nexts[0]);
    }

    /** The node at a score, found on the highest level it reaches. */
    method Get(score: Score) returns (n: VirtualNode?)
      requires Valid()
      ensures if score in at then n == at[score] else n == null
    {
      var move := root;
      assert |root.nexts| == 0 ==> at == map[] by { assert Links()[-1] == root.nexts; }
      assert IndexOk(at);
      hide ListOk;
      for level := |root.nexts| downto 0
        invariant Valid() && On(move) && Key(move) < score && level <= |move.nexts|
        invariant level < |root.nexts| ==> level < |move.nexts| && Link(at, Key(move), level, move.nexts[level])
        invariant level < |root.nexts| && move.nexts[level] != null ==> score < move.nexts[level].score
      {
        Level(level);
        move := Walk(move, level, score);
        if move.nexts[level] != null && move.nexts[level].score == score { return move.nexts[level]; }
      }
      n := null;
    }

    method Node(score: Score) returns (found: bool, nodes: seq<string>)
      requires Valid()
      ensures found == (score in Slots())
      ensures nodes == if found then Slots()[score] else []
    {
      var n := Get(score);
      if n == null { return false, []; }
      return true, n.nodeIDs;
    }

    /** The first score clockwise, or -1 on an empty ring. */
    method Ceiling(score: Score) returns (r: int)
      requires Valid()
      ensures at == map[] <==> Slots() == map[]
      ensures r == if at == map[] then -1 else RingSpec.Ceiling(Slots().Keys, score)
    {
      if |root.nexts| == 0 { return -1; }
      Level(0);
      var move := WalkDown(score);
      if move.nexts[0] != null {
        r := move.nexts[0].score;
      } else {
        r := root.nexts[0].score;
        BottomLink(at, -1, root.nexts[0]);
      }
      CeilingIs(Slots().Keys, score, r);
    }

    /** The last node of the list. */
    method Last() returns (r: int)
      requires Valid()
      ensures at == map[] ==> r == -1
      ensures at != map[] ==> r in at && forall s :: s in at ==> s <= r
    {
      if |root.nexts| == 0 { return -1; }
      Level(0);
      var move := WalkDown(CIRCLE);
      assert move != root;
      r := move.score;
    }

    /** The first score anticlockwise, or -1 on an empty ring. */
    method Floor(score: Score) returns (r: int)
      requires Valid()
      ensures at == map[] <==> Slots() == map[]
      ensures r == if at == map[] then -1 else RingSpec.Floor(Slots().Keys, score)
    {
      EmptyRoot();
      hide ListOk, Link;
      if |root.nexts| == 0 { return -1; }
      r := FloorScore(score);
      FloorIs(Slots().Keys, score, r);
    }

    lemma EmptyRoot()
      requires Valid()
      ensures |root.nexts| == 0 <==> at == map[]
      ensures Slots().Keys == at.Keys && (at == map[] <==> Slots() == map[])
    {
      assert Links()[-1] == root.nexts;
      if |root.nexts| > 0 { Level(0); }
    }

    method FloorScore(score: Score) returns (r: int)
      requires Valid() && at != map[]
      ensures r in at
      ensures if exists s :: s in at && s <= score then r <= score && (forall s :: s in at && s <= score ==> s <= r) else forall s :: s in at ==> s <= r
    {
      assert IndexOk(at);
      hide ListOk, Link;
      var move := WalkDown(score);
      if move.nexts[0] != null && move.nexts[0].score == score {
        r := score;
      } else if move == root {
        r := Last();
      } else {
        r := move.score;
      }
    }

    /** Adds a raw key at a score; `roll` is the random level of a new node. */
    method Add(score: Score, key: string, roll: nat)
      requires Valid()
      modifies Repr()
      ensures Valid() && fresh(Repr() - old(Repr()))
      ensures State() == RingSpec.Add(old(State()), score, key)
    {
      assert IndexOk(at);
      hide ListOk, LevelOk, Link, RingSpec.Add;
      var target := Get(score);
      if target != null {
        AddKey(target, key);
      } else {
        Insert(score, key, roll);
      }
    }

    /** The score has a node: it gets the raw key once. */
    method AddKey(target: VirtualNode, key: string)
      requires Valid() && target.score in at && at[target.score] == target
      modifies target`nodeIDs
      ensures Valid() && State() == RingSpec.Add(old(State()), target.score, key)
    {
      hide ListOk, LevelOk, Link;
      if key !in target.nodeIDs { SetNodeIDs(target, target.nodeIDs + [key]); }
    }

    method SetNodeIDs(target: VirtualNode, keys: seq<string>)
      requires Valid() && target.score in at && at[target.score] == target
      modifies target`nodeIDs
      ensures Valid() && State() == old(State()).(slots := old(Slots())[target.score := keys])
    {
      assert IndexOk(at) && -1 !in at;
      hide ListOk, LevelOk, Link;
      target.nodeIDs := keys;
      assert Links() == old(Links());
      forall s: Score | s in at && s != target.score ensures at[s].nodeIDs == old(at[s].nodeIDs) {}
      assert Slots() == old(Slots())[target.score := keys];
    }

    method Insert(score: Score, key: string, roll: nat)
      requires Valid() && score !in at
      modifies Repr()
      ensures Valid() && fresh(Repr() - old(Repr()))
      ensures State() == RingSpec.Add(old(State()), score, key)
    {
      hide Half, ListOk, LevelOk, Link;
      var n := new VirtualNode(score, [key], roll + 1);
      Raise(n, roll);
      Splice(n, roll);
      assert Slots() == old(Slots());
      Adopt(n);
    }

    /** Gives the root as many levels as the new node. */
    method Raise(n: VirtualNode, roll: nat)
      requires Valid() && n !in Repr() && n.score !in at && n.height == roll + 1 == |n.nexts|
      modifies root`nexts
      ensures Half(at, Links(), n, n.nexts, roll + 1) && Slots() == old(Slots())
    {
      ghost var links := Links();
      assert -1 !in at;
      hide ListOk, LevelOk, Link;
      HalfStart(at, links, n, n.nexts);
      if |root.nexts| < roll + 1 {
        root.nexts := root.nexts + Nulls(roll + 1 - |root.nexts|);
      }
      hide Half;
      assert Links() == links[-1 := root.nexts];
      assert root.nexts == links[-1] + if |links[-1]| < n.height then Nulls(n.height - |links[-1]|) else [];
    }

    /** Links a new node in on all its levels, from its top level down. */
    method Splice(n: VirtualNode, roll: nat)
      requires root !in at.Values && n !in Repr() && Half(at, Links(), n, n.nexts, roll + 1)
      modifies root`nexts, at.Values`nexts, n`nexts
      ensures Half(at, Links(), n, n.nexts, 0)
    {
      var move := root;
      HalfShape(at, Links(), n, n.nexts, roll + 1);
      hide Half, ListOk, LevelOk, Link, Shaped;
      for level := roll + 1 downto 0
        invariant root !in at.Values && n !in Repr()
        invariant Half(at, Links(), n, n.nexts, level)
        invariant On(move) && Key(move) < n.score && level <= |move.nexts|
      {
        move := SpliceLevel(move, level, n);
      }
    }

    ghost method Adopt(n: VirtualNode)
      requires root !in at.Values && n !in Repr() && Half(at, Links(), n, n.nexts, 0)
      modifies this`at
      ensures Valid() && at == old(at)[n.score := n] && Slots() == old(Slots())[n.score := n.nodeIDs]
    {
      hide LevelOk, Link;
      HalfFresh(at, Links(), n, n.nexts, 0);
      HalfDone(at, Links(), n, n.nexts);
      hide Half, ListOk;
      Enlist(n);
    }

    ghost method Enlist(n: VirtualNode)
      requires n.score !in at && n != root && root !in at.Values
      modifies this`at
      ensures at == old(at)[n.score := n] && root !in at.Values
      ensures Links() == old(Links())[n.score := n.nexts] && Slots() == old(Slots())[n.score := n.nodeIDs]
    {
      at := at[n.score := n];
    }

    /** Finds the node's place on one level and links it in there. */
    method SpliceLevel(from: VirtualNode, level: nat, n: VirtualNode) returns (move: VirtualNode)
      requires root !in at.Values && n !in Repr() && Half(at, Links(), n, n.nexts, level + 1)
      requires On(from) && Key(from) < n.score && level < |from.nexts|
      modifies root`nexts, at.Values`nexts, n`nexts
      ensures Half(at, Links(), n, n.nexts, level) && On(move) && Key(move) < n.score && level <= |move.nexts|
    {
      hide Half, LevelOk, Link;
      HalfLevel(at, Links(), n, n.nexts, level);
      move := Walk(from, level, n.score);
      SpliceAt(move, level, n);
    }

    /** Puts the node between `move` and its successor on one level. */
    method SpliceAt(move: VirtualNode, level: nat, n: VirtualNode)
      requires root !in at.Values && n !in Repr() && On(move) && Half(at, Links(), n, n.nexts, level + 1)
      requires level < |move.nexts| && Key(move) < n.score
      requires move.nexts[level] != null ==> n.score <= move.nexts[level].score
      modifies move`nexts, n`nexts
      ensures Half(at, Links(), n, n.nexts, level) && |move.nexts| == |old(move.nexts)|
    {
      hide LevelOk, Link;
      ghost var links, nexts, k := Links(), n.nexts, Key(move);
      HalfLevel(at, links, n, n.nexts, level);
      HalfStep(at, links, n, n.nexts, level, k);
      hide Half;
      n.nexts := n.nexts[level := move.nexts[level]];
      assert Links() == links;
      SetNext(move, level, n);
    }

    method SetNext(move: VirtualNode, level: nat, to: VirtualNode?)
      requires IndexOk(at) && root !in at.Values && On(move) && level < |move.nexts|
      modifies move`nexts
      ensures Links() == old(Links())[Key(move) := old(Links())[Key(move)][level := to]] && |move.nexts| == |old(move.nexts)|
    {
      ghost var links, k := Links(), Key(move);
      move.nexts := move.nexts[level := to];
      assert Links()[k] == links[k][level := to];
      forall s | s in at && s != k ensures at[s] != move {}
    }

    /** Takes a raw key off a score; the node goes when it was the only one there. */
    method Rem(score: Score, key: string) returns (ok: bool)
      requires Valid()
      modifies Repr()
      ensures Valid() && Repr() <= old(Repr())
      ensures var out := RingSpec.Rem(old(State()), score, key); State() == out.state && ok == out.Done?
    {
      hide ListOk, LevelOk, Link, DropKey;
      var target, i := Locate(score, key);
      ok := target != null;
      if ok {
        DropData(key);
        TakeOff(target, i);
      }
    }

    /** The node at a score and where the key stands in it; null if the key is not there. */
    method Locate(score: Score, key: string) returns (n: VirtualNode?, i: nat)
      requires Valid()
      ensures n != null <==> score in Slots() && key in Slots()[score]
      ensures n != null ==> n.score == score && score in at && at[score] == n
      ensures n != null ==> i < |n.nodeIDs| && n.nodeIDs[i] == key && key !in n.nodeIDs[..i]
    {
      assert IndexOk(at);
      i := 0;
      n := Get(score);
      if n != null {
        i := IndexOf(n.nodeIDs, key);
        if i == |n.nodeIDs| { n := null; }
      }
    }

    /** Changing the maps beside the list leaves the list alone. */
    twostate lemma SameList()
      requires old(Valid()) && at == old(at) && root == old(root) && root.nexts == old(root.nexts)
      requires forall s :: s in at ==> at[s].nexts == old(at[s].nexts) && at[s].nodeIDs == old(at[s].nodeIDs)
      ensures Valid() && Slots() == old(Slots())
    {
      assert -1 !in at;
      hide ListOk, LevelOk, Link;
      assert Links() == old(Links());
    }

    method DropData(key: string)
      requires Valid()
      modifies this`nodeToDataKey
      ensures Valid() && Slots() == old(Slots()) && nodeToDataKey == old(nodeToDataKey) - {key}
    {
      hide ListOk;
      nodeToDataKey := nodeToDataKey - {key};
      SameList();
    }

    method AddNodeToReplica(node: string, count: nat)
      requires Valid()
      modifies this`nodeToReplicas
      ensures Valid() && State() == old(State()).(replicas := old(nodeToReplicas)[node := count])
    {
      hide ListOk;
      nodeToReplicas := nodeToReplicas[node := count];
      SameList();
    }

    method DeleteNodeToReplica(node: string)
      requires Valid()
      modifies this`nodeToReplicas
      ensures Valid() && State() == old(State()).(replicas := old(nodeToReplicas) - {node})
    {
      hide ListOk;
      nodeToReplicas := nodeToReplicas - {node};
      SameList();
    }

    method AddNodeToDataKeys(node: string, keys: set<string>)
      requires Valid()
      modifies this`nodeToDataKey
      ensures Valid() && State() == AddKeys(old(State()), node, keys)
    {
      hide ListOk;
      var known := if node in nodeToDataKey then nodeToDataKey[node] else {};
      nodeToDataKey := nodeToDataKey[node := known + keys];
      SameList();
    }

    method DeleteNodeToDataKeys(node: string, keys: set<string>)
      requires Valid()
      modifies this`nodeToDataKey
      ensures Valid() && State() == DeleteKeys(old(State()), node, keys)
    {
      hide ListOk;
      if node in nodeToDataKey {
        var left := nodeToDataKey[node] - keys;
        nodeToDataKey := if left == {} then nodeToDataKey - {node} else nodeToDataKey[node := left];
      }
      SameList();
    }

    method IndexOf(keys: seq<string>, key: string) returns (i: nat)
      ensures i <= |keys| && key !in keys[..i] && (i < |keys| ==> keys[i] == key)
    {
      i := 0;
      while i < |keys| && keys[i] != key
        invariant i <= |keys| && key !in keys[..i]
      {
        i := i + 1;
      }
    }

    method TakeOff(n: VirtualNode, i: nat)
      requires Valid() && n.score in at && at[n.score] == n && i < |n.nodeIDs| && n.nodeIDs[i] !in n.nodeIDs[..i]
      modifies this`at, root`nexts, at.Values
      ensures Valid() && root == old(root) && at.Values <= old(at.Values)
      ensures Slots() == DropKey(old(Slots()), n.score, old(n.nodeIDs[i]))
    {
      hide ListOk, LevelOk, Link;
      if |n.nodeIDs| > 1 {
        WithoutAt(n.nodeIDs, i, n.nodeIDs[i]);
        SetNodeIDs(n, n.nodeIDs[..i] + n.nodeIDs[i + 1..]);
      } else {
        Unlink(n);
      }
    }

    /** Unlinks a node on all its levels, from the top down, and drops the levels left empty. */
    method Unlink(n: VirtualNode)
      requires Valid() && n.score in at && at[n.score] == n
      modifies this`at, root`nexts, at.Values`nexts
      ensures Valid() && at == old(at) - {n.score} && root == old(root) && Slots() == old(Slots()) - {n.score}
    {
      StartUnlinking(n);
      hide ListOk, LevelOk, Link, Unlinking, Shaped;
      var move := root;
      for level := |root.nexts| downto 0
        invariant at == old(at) && root == old(root) && root !in at.Values && Unlinking(at, Links(), n, level)
        invariant On(move) && Key(move) < n.score && level <= |move.nexts| && n.score in at && at[n.score] == n
      {
        move := UnlinkLevel(move, level, n);
      }
      assert Slots() == old(Slots());
      Disown(n);
      Trim();
    }

    lemma StartUnlinking(n: VirtualNode)
      requires Valid() && n.score in at && at[n.score] == n
      ensures Unlinking(at, Links(), n, |root.nexts|)
    {
      hide LevelOk, Link;
      assert Links()[-1] == root.nexts;
    }

    method UnlinkLevel(from: VirtualNode, level: nat, n: VirtualNode) returns (move: VirtualNode)
      requires root !in at.Values && n.score in at && at[n.score] == n && Unlinking(at, Links(), n, level + 1)
      requires On(from) && Key(from) < n.score && level < |from.nexts|
      modifies root`nexts, at.Values`nexts
      ensures Unlinking(at, Links(), n, level) && On(move) && Key(move) < n.score && level <= |move.nexts|
    {
      hide Unlinking, LevelOk;
      UnlinkingLevel(at, Links(), n, level, -1);
      move := Walk(from, level, n.score);
      ghost var k := Key(move);
      assert Links()[k] == move.nexts;
      if move.nexts[level] == null || move.nexts[level].score > n.score {
        UnlinkingSkip(at, Links(), n, level, k);
      } else {
        assert move.nexts[level] == n;
        UnlinkAt(move, level, n);
      }
    }

    method UnlinkAt(move: VirtualNode, level: nat, n: VirtualNode)
      requires root !in at.Values && n.score in at && at[n.score] == n && Unlinking(at, Links(), n, level + 1)
      requires On(move) && Key(move) < n.score && level < |move.nexts| && move.nexts[level] == n
      modifies move`nexts
      ensures Unlinking(at, Links(), n, level) && |move.nexts| == |old(move.nexts)|
    {
      hide LevelOk, Link;
      ghost var links, k := Links(), Key(move);
      UnlinkingLevel(at, links, n, level, k);
      UnlinkingStep(at, links, n, level, k);
      hide Unlinking;
      move.nexts := move.nexts[level := move.nexts[level].nexts[level]];
      assert Links() == links[k := links[k][level := links[n.score][level]]];
    }

    ghost method Disown(n: VirtualNode)
      requires root !in at.Values && n.score in at && at[n.score] == n && Unlinking(at, Links(), n, 0)
      modifies this`at
      ensures at == old(at) - {n.score} && root !in at.Values && Complete(at, Links())
      ensures Slots() == old(Slots()) - {n.score}
    {
      UnlinkingDone(at, Links(), n);
      assert -1 !in at;
      hide Unlinking, LevelOk, Link, Complete;
      ghost var links := Links();
      at := at - {n.score};
      assert Links() == links - {n.score};
    }

    method Trim()
      requires root !in at.Values && Complete(at, Links())
      modifies root`nexts
      ensures Valid() && Slots() == old(Slots())
    {
      var level := 0;
      while level < |root.nexts| && root.nexts[level] != null
        invariant 0 <= level <= |root.nexts|
        invariant forall l :: 0 <= l < level ==> root.nexts[l] != null
      {
        level := level + 1;
      }
      ghost var links := Links();
      Trimmed(at, links, level);
      assert -1 !in at;
      hide Complete, ListOk, LevelOk, Link;
      root.nexts := root.nexts[..level];
      assert Links() == links[-1 := links[-1][..level]];
    }
  }

  lemma {:induction false} WithoutAt(keys: seq<string>, i: nat, key: string)
    requires i < |keys| && keys[i] == key && key !in keys[..i]
    ensures Without(keys, key) == keys[..i] + keys[i + 1..]
  {
    if i > 0 {
      assert keys[0] == keys[..i][0];
      assert keys[1..][..i - 1] == keys[..i][1..];
      WithoutAt(keys[1..], i - 1, key);
    }
  }
}
