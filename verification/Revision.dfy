/** Revisions: nodes linked to a previous and a next one. As long as they form a list, it
    looks the same from every node. */
module Revision {
  import opened Ints
  import Source

  // ----- what a node sees -----

  /** The nodes up to a node by the links back, those from it on by the links ahead, and
      those ahead of the first one. */
  datatype View = View(back: seq<Revision>, ahead: seq<Revision>, all: seq<Revision>)

  ghost predicate LinkedBack(nodes: seq<Revision>)
    reads nodes
  {
    && nodes != [] && nodes[0].prev == null
    && forall i {:trigger nodes[i].prev} :: 0 < i < |nodes| ==> nodes[i].prev == nodes[i - 1]
  }

  ghost predicate LinkedAhead(nodes: seq<Revision>)
    reads nodes
  {
    && nodes != [] && nodes[|nodes| - 1].next == null
    && forall i {:trigger nodes[i].next} :: 0 <= i < |nodes| - 1 ==> nodes[i].next == nodes[i + 1]
  }

  ghost predicate Sees(node: Revision, v: View)
    reads v.back, v.ahead, v.all
  {
    && LinkedBack(v.back) && v.back[|v.back| - 1] == node
    && LinkedAhead(v.ahead) && v.ahead[0] == node
    && LinkedAhead(v.all) && v.all[0] == v.back[0]
  }

  /** The links alone say what a node sees. */
  lemma {:induction false} OneView(node: Revision, v: View, w: View)
    requires Sees(node, v) && Sees(node, w)
    ensures v == w
  {
    SameBack(v.back, w.back);
    SameAhead(v.ahead, w.ahead);
    SameAhead(v.all, w.all);
  }

  lemma {:induction false} SameBack(a: seq<Revision>, b: seq<Revision>)
    requires LinkedBack(a) && LinkedBack(b) && a[|a| - 1] == b[|b| - 1]
    ensures a == b
    decreases |a|
  {
    var n, m := |a| - 1, |b| - 1;
    assert n > 0 ==> a[n].prev == a[n - 1];
    assert m > 0 ==> b[m].prev == b[m - 1];
    if n > 0 {
      SameBack(a[..n], b[..m]);
      assert a == a[..n] + [a[n]] && b == b[..m] + [b[m]];
    }
  }

  lemma {:induction false} SameAhead(a: seq<Revision>, b: seq<Revision>)
    requires LinkedAhead(a) && LinkedAhead(b) && a[0] == b[0]
    ensures a == b
    decreases |a|
  {
    assert |a| > 1 ==> a[0].next == a[1];
    assert |b| > 1 ==> b[0].next == b[1];
    if |a| > 1 {
      AheadTail(a);
      AheadTail(b);
      SameAhead(a[1..], b[1..]);
      assert a == [a[0]] + a[1..] && b == [b[0]] + b[1..];
    }
  }

  lemma {:induction false} AheadTail(nodes: seq<Revision>)
    requires LinkedAhead(nodes) && |nodes| > 1
    ensures LinkedAhead(nodes[1..])
  {
    var rest := nodes[1..];
    forall i | 0 <= i < |rest| - 1 ensures rest[i].next == rest[i + 1] {
      assert nodes[i + 1].next == nodes[i + 2];
    }
  }

  /** The index nearest to i. */
  function Nearest(i: int, len: nat): (r: nat)
    requires len > 0
    ensures if i < 0 then r == 0 else if i < len then r == i else r == len - 1
  {
    Max(0, Min(i, len - 1))
  }

  /** Where n steps lead, stopping at the ends. */
  ghost function Landing(v: View, n: int): Revision
    requires v.back != [] && v.ahead != []
  {
    if n >= 0 then v.ahead[Nearest(n, |v.ahead|)] else v.back[Nearest(|v.back| - 1 + n, |v.back|)]
  }

  ghost function LenOf(v: View): int {
    |v.back| + |v.ahead| - 1
  }

  function NamesOf(nodes: seq<Revision>): seq<string> {
    seq(|nodes|, i requires 0 <= i < |nodes| => nodes[i].head.name)
  }

  // ----- lists -----

  /** From origin to tip, linked both ways. */
  ghost predicate Linked(chain: seq<Revision>)
    reads chain
  {
    LinkedBack(chain) && LinkedAhead(chain)
  }

  ghost function ListView(chain: seq<Revision>, i: nat): View
    requires i < |chain|
  {
    View(chain[..i + 1], chain[i..], chain)
  }

  lemma {:induction false} AllSeeTheList(chain: seq<Revision>, i: nat)
    requires Linked(chain) && i < |chain|
    ensures Sees(chain[i], ListView(chain, i))
  {
    LinkedParts(chain, i);
  }

  ghost predicate BackBetween(nodes: seq<Revision>, lo: nat, hi: nat)
    requires hi < |nodes|
    reads nodes
  {
    forall k {:trigger nodes[k].prev} :: lo < k <= hi ==> nodes[k].prev == nodes[k - 1]
  }

  ghost predicate AheadBetween(nodes: seq<Revision>, lo: nat, hi: nat)
    requires hi < |nodes|
    reads nodes
  {
    forall k {:trigger nodes[k].next} :: lo <= k < hi ==> nodes[k].next == nodes[k + 1]
  }

  lemma {:induction false} BackSlice(nodes: seq<Revision>, lo: nat, hi: nat)
    requires lo <= hi < |nodes| && BackBetween(nodes, lo, hi) && nodes[lo].prev == null
    ensures LinkedBack(nodes[lo..hi + 1])
  {
    var slice := nodes[lo..hi + 1];
    forall k | 0 < k < |slice| ensures slice[k].prev == slice[k - 1] {
      assert nodes[lo + k].prev == nodes[lo + k - 1];
    }
  }

  lemma {:induction false} AheadSlice(nodes: seq<Revision>, lo: nat, hi: nat)
    requires lo <= hi < |nodes| && AheadBetween(nodes, lo, hi) && nodes[hi].next == null
    ensures LinkedAhead(nodes[lo..hi + 1])
  {
    var slice := nodes[lo..hi + 1];
    forall k | 0 <= k < |slice| - 1 ensures slice[k].next == slice[k + 1] {
      assert nodes[lo + k].next == nodes[lo + k + 1];
    }
  }

  lemma {:induction false} LinkedParts(chain: seq<Revision>, i: nat)
    requires Linked(chain) && i < |chain|
    ensures LinkedBack(chain[..i + 1]) && LinkedAhead(chain[i..])
  {
    BackSlice(chain, 0, i);
    AheadSlice(chain, i, |chain| - 1);
    assert chain[0..i + 1] == chain[..i + 1] && chain[i..|chain|] == chain[i..];
  }

  /** In a list every node gives the same answers: steps lead to the node so many places
      away or to the nearest end, and length and names are those of the list. */
  lemma {:induction false} SameAnswers(chain: seq<Revision>, i: nat, n: int)
    requires i < |chain|
    ensures var v := ListView(chain, i);
            && Landing(v, n) == chain[Nearest(i + n, |chain|)]
            && LenOf(v) == |chain| && v.all == chain && |v.back| - 1 == i
            && v.ahead[|v.ahead| - 1] == chain[|chain| - 1] && v.back[0] == chain[0]
  {
  }

  /** No node occurs twice. */
  lemma {:induction false} NodesDistinct(chain: seq<Revision>, i: nat, j: nat)
    requires Linked(chain) && i < |chain| && j < |chain| && i != j
    ensures chain[i] != chain[j]
  {
    if chain[i] == chain[j] {
      LinkedParts(chain, i);
      LinkedParts(chain, j);
      SameBack(chain[..i + 1], chain[..j + 1]);
    }
  }

  // ----- one more node, anywhere -----

  /** The way ahead, led to a new node where it comes by this one. */
  function LedAhead(nodes: seq<Revision>, node: Revision, rev: Revision): seq<Revision> {
    if nodes == [] then []
    else if nodes[0] == node then [node, rev]
    else [nodes[0]] + LedAhead(nodes[1..], node, rev)
  }

  /** The way back, from its end, led to a new node where it comes by this one. */
  function LedBack(nodes: seq<Revision>, node: Revision, rev: Revision): seq<Revision> {
    if nodes == [] then []
    else if nodes[|nodes| - 1] == node then [rev, node]
    else LedBack(nodes[..|nodes| - 1], node, rev) + [nodes[|nodes| - 1]]
  }

  /** What a node sees after appending to another: both ways ahead are led to the new node. */
  function AfterAppend(w: View, node: Revision, rev: Revision): View {
    View(w.back, LedAhead(w.ahead, node, rev), LedAhead(w.all, node, rev))
  }

  /** And after prepending to one that sees v: a way back that comes by it is led to the new
      node, from where the way ahead is that of the node. */
  function AfterPrepend(w: View, node: Revision, v: View, rev: Revision): View {
    if node in w.back then View(LedBack(w.back, node, rev), w.ahead, [rev] + v.ahead) else w
  }

  ghost predicate AheadExcept(nodes: seq<Revision>, node: Revision)
    reads nodes
  {
    && (forall i {:trigger nodes[i].next} :: 0 <= i < |nodes| - 1 && nodes[i] != node ==> nodes[i].next == nodes[i + 1])
    && (nodes != [] && nodes[|nodes| - 1] != node ==> nodes[|nodes| - 1].next == null)
  }

  ghost predicate BackExcept(nodes: seq<Revision>, node: Revision)
    reads nodes
  {
    && (forall i {:trigger nodes[i].prev} :: 0 < i < |nodes| && nodes[i] != node ==> nodes[i].prev == nodes[i - 1])
    && (nodes != [] && nodes[0] != node ==> nodes[0].prev == null)
  }

  lemma {:induction false} LedAheadLinked(nodes: seq<Revision>, node: Revision, rev: Revision)
    requires nodes != [] && AheadExcept(nodes, node) && node.next == rev && rev.next == null
    ensures LinkedAhead(LedAhead(nodes, node, rev)) && LedAhead(nodes, node, rev)[0] == nodes[0]
  {
    if nodes[0] != node && |nodes| > 1 {
      var rest := nodes[1..];
      forall i | 0 <= i < |rest| - 1 && rest[i] != node ensures rest[i].next == rest[i + 1] {
        assert nodes[i + 1].next == nodes[i + 2];
      }
      LedAheadLinked(rest, node, rev);
      AheadCons(nodes[0], LedAhead(rest, node, rev));
    }
  }

  lemma {:induction false} AheadCons(first: Revision, nodes: seq<Revision>)
    requires LinkedAhead(nodes) && first.next == nodes[0]
    ensures LinkedAhead([first] + nodes)
  {
    var all := [first] + nodes;
    forall i | 0 <= i < |all| - 1 ensures all[i].next == all[i + 1] {
      assert i > 0 ==> nodes[i - 1].next == nodes[i];
    }
  }

  lemma {:induction false} LedBackLinked(nodes: seq<Revision>, node: Revision, rev: Revision)
    requires nodes != [] && BackExcept(nodes, node) && node.prev == rev && rev.prev == null
    ensures var led := LedBack(nodes, node, rev);
            && LinkedBack(led) && led[|led| - 1] == nodes[|nodes| - 1]
            && led[0] == if node in nodes then rev else nodes[0]
  {
    var n := |nodes| - 1;
    if nodes[n] != node && n > 0 {
      var init := nodes[..n];
      forall i | 0 < i < |init| && init[i] != node ensures init[i].prev == init[i - 1] {
        assert nodes[i].prev == nodes[i - 1];
      }
      LedBackLinked(init, node, rev);
      BackSnoc(LedBack(init, node, rev), nodes[n]);
    }
  }

  lemma {:induction false} BackSnoc(nodes: seq<Revision>, last: Revision)
    requires LinkedBack(nodes) && last.prev == nodes[|nodes| - 1]
    ensures LinkedBack(nodes + [last])
  {
    var all := nodes + [last];
    forall i | 0 < i < |all| ensures all[i].prev == all[i - 1] {
      assert i < |nodes| ==> nodes[i].prev == nodes[i - 1];
    }
  }

  /** What a node sees, but for the link back of one node. */
  ghost predicate SeesButBack(m: Revision, w: View, node: Revision)
    reads w.back, w.ahead, w.all
  {
    && LinkedAhead(w.ahead) && w.ahead[0] == m && LinkedAhead(w.all)
    && w.back != [] && w.back[|w.back| - 1] == m && BackExcept(w.back, node) && w.all[0] == w.back[0]
  }

  twostate lemma AheadIsLed(nodes: seq<Revision>, new node: Revision, new rev: Revision)
    requires old(LinkedAhead(nodes)) && node.next == rev && rev.next == null
    requires forall o: Revision :: old(allocated(o)) && o != node ==> o.next == old(o.next)
    ensures LinkedAhead(LedAhead(nodes, node, rev)) && LedAhead(nodes, node, rev)[0] == nodes[0]
  {
    assert forall i :: 0 <= i < |nodes| && nodes[i] != node ==> nodes[i].next == old(nodes[i].next);
    LedAheadLinked(nodes, node, rev);
  }

  twostate lemma BackUnchanged(nodes: seq<Revision>)
    requires old(LinkedBack(nodes)) && forall o :: o in nodes ==> o.prev == old(o.prev)
    ensures LinkedBack(nodes)
  {
    assert forall i :: 0 <= i < |nodes| ==> nodes[i].prev == old(nodes[i].prev);
  }

  twostate lemma BackChanged(new m: Revision, w: View, new node: Revision)
    requires m in w.back && old(Sees(m, w))
    requires forall o :: o in w.back + w.ahead + w.all ==>
             o.next == old(o.next) && (o != node ==> o.prev == old(o.prev))
    ensures SeesButBack(m, w, node)
  {
    assert forall i :: 0 <= i < |w.back| && w.back[i] != node ==> w.back[i].prev == old(w.back[i].prev);
    assert forall i :: 0 <= i < |w.ahead| ==> w.ahead[i].next == old(w.ahead[i].next);
    assert forall i :: 0 <= i < |w.all| ==> w.all[i].next == old(w.all[i].next);
  }

  /** After node.prev was set to a new first node, what was seen before is led there. */
  lemma {:induction false} PrependedView(m: Revision, w: View, node: Revision, v: View, rev: Revision)
    requires SeesButBack(m, w, node) && LinkedAhead(v.ahead) && v.ahead[0] == node
    requires node.prev == rev && rev.prev == null && rev.next == node
    ensures Sees(m, AfterPrepend(w, node, v, rev))
  {
    AheadCons(rev, v.ahead);
    if node in w.back {
      LedBackLinked(w.back, node, rev);
    } else {
      assert forall i :: 0 <= i < |w.back| ==> w.back[i] != node;
    }
  }

  /** What the nodes see, once another is appended to one of them. */
  ghost function AllAfterAppend(views: map<Revision, View>, node: Revision, rev: Revision): map<Revision, View>
    requires node in views
  {
    (map m | m in views :: AfterAppend(views[m], node, rev))[
      rev := View(views[node].back + [rev], [rev], LedAhead(views[node].all, node, rev))]
  }

  ghost function AllAfterPrepend(views: map<Revision, View>, node: Revision, rev: Revision): map<Revision, View>
    requires node in views
  {
    var ahead := [rev] + views[node].ahead;
    (map m | m in views :: AfterPrepend(views[m], node, views[node], rev))[rev := View([rev], ahead, ahead)]
  }

  /** Every node sees its view. */
  ghost predicate AllSee(views: map<Revision, View>)
    reads *
  {
    forall m {:trigger Sees(m, views[m])} :: m in views ==> Sees(m, views[m])
  }

  twostate lemma OldSeesAfterAppend(views: map<Revision, View>, new m: Revision, new node: Revision, new rev: Revision)
    requires old(AllSee(views)) && m in views && node.next == rev && rev.next == null
    requires forall o: Revision :: old(allocated(o)) ==> o.prev == old(o.prev) && (o != node ==> o.next == old(o.next))
    ensures Sees(m, AfterAppend(views[m], node, rev))
  {
    var w := views[m];
    assert old(Sees(m, w));
    BackUnchanged(w.back);
    AheadIsLed(w.ahead, node, rev);
    AheadIsLed(w.all, node, rev);
  }

  twostate lemma NewSeesAfterAppend(views: map<Revision, View>, new node: Revision, new rev: Revision)
    requires old(AllSee(views)) && node in views && node.next == rev && rev.next == null && rev.prev == node
    requires forall o: Revision :: old(allocated(o)) ==> o.prev == old(o.prev) && (o != node ==> o.next == old(o.next))
    ensures Sees(rev, View(views[node].back + [rev], [rev], LedAhead(views[node].all, node, rev)))
  {
    var v := views[node];
    assert old(Sees(node, v));
    BackUnchanged(v.back);
    AheadIsLed(v.all, node, rev);
    BackSnoc(v.back, rev);
  }

  twostate lemma AllSeeAfterAppend(views: map<Revision, View>, new node: Revision, new rev: Revision)
    requires old(AllSee(views)) && node in views && node.next == rev && rev.next == null && rev.prev == node
    requires forall o: Revision :: old(allocated(o)) ==> o.prev == old(o.prev) && (o != node ==> o.next == old(o.next))
    ensures AllSee(AllAfterAppend(views, node, rev))
  {
    var next := AllAfterAppend(views, node, rev);
    forall m | m in next ensures Sees(m, next[m]) {
      if m == rev {
        NewSeesAfterAppend(views, node, rev);
      } else {
        OldSeesAfterAppend(views, m, node, rev);
      }
    }
  }

  twostate lemma OldSeesAfterPrepend(views: map<Revision, View>, new m: Revision, new node: Revision, new rev: Revision)
    requires old(AllSee(views)) && m in views && node in views && node.prev == rev && rev.prev == null
    requires rev.next == node
    requires forall o: Revision :: old(allocated(o)) ==> o.next == old(o.next) && (o != node ==> o.prev == old(o.prev))
    ensures Sees(m, AfterPrepend(views[m], node, views[node], rev))
  {
    assert old(Sees(m, views[m])) && old(Sees(node, views[node]));
    BackChanged(node, views[node], node);
    BackChanged(m, views[m], node);
    PrependedView(m, views[m], node, views[node], rev);
  }

  twostate lemma NewSeesAfterPrepend(views: map<Revision, View>, new node: Revision, new rev: Revision)
    requires old(AllSee(views)) && node in views && node.prev == rev && rev.prev == null && rev.next == node
    requires forall o: Revision :: old(allocated(o)) ==> o.next == old(o.next) && (o != node ==> o.prev == old(o.prev))
    ensures Sees(rev, View([rev], [rev] + views[node].ahead, [rev] + views[node].ahead))
  {
    assert old(Sees(node, views[node]));
    BackChanged(node, views[node], node);
    AheadCons(rev, views[node].ahead);
  }

  twostate lemma AllSeeAfterPrepend(views: map<Revision, View>, new node: Revision, new rev: Revision)
    requires old(AllSee(views)) && node in views && node.prev == rev && rev.prev == null && rev.next == node
    requires forall o: Revision :: old(allocated(o)) ==> o.next == old(o.next) && (o != node ==> o.prev == old(o.prev))
    ensures AllSee(AllAfterPrepend(views, node, rev))
  {
    var next := AllAfterPrepend(views, node, rev);
    forall m | m in next ensures Sees(m, next[m]) {
      if m == rev {
        NewSeesAfterPrepend(views, node, rev);
      } else {
        OldSeesAfterPrepend(views, m, node, rev);
      }
    }
  }

  // ----- one more node, in a list -----

  ghost predicate NoRepeats(chain: seq<Revision>) {
    forall i, j :: 0 <= i < j < |chain| ==> chain[i] != chain[j]
  }

  lemma {:induction false} ListHasNoRepeats(chain: seq<Revision>)
    requires Linked(chain)
    ensures NoRepeats(chain)
  {
    forall i, j | 0 <= i < j < |chain| ensures chain[i] != chain[j] {
      NodesDistinct(chain, i, j);
    }
  }

  /** What the j-th node of a list sees after appending to the i-th one. */
  ghost function AppendedTo(chain: seq<Revision>, i: nat, rev: Revision, j: nat): View
    requires i < |chain| && j < |chain|
  {
    View(chain[..j + 1], if j <= i then chain[j..i + 1] + [rev] else chain[j..], chain[..i + 1] + [rev])
  }

  /** What it sees after prepending to the i-th one. */
  ghost function PrependedTo(chain: seq<Revision>, i: nat, rev: Revision, j: nat): View
    requires i < |chain| && j < |chain|
  {
    if j < i then ListView(chain, j) else View([rev] + chain[i..j + 1], chain[j..], [rev] + chain[i..])
  }

  lemma {:induction false} LedAheadAt(nodes: seq<Revision>, k: nat, rev: Revision)
    requires k < |nodes| && forall i :: 0 <= i < k ==> nodes[i] != nodes[k]
    ensures LedAhead(nodes, nodes[k], rev) == nodes[..k + 1] + [rev]
  {
    if k > 0 {
      assert nodes[1..][k - 1] == nodes[k];
      LedAheadAt(nodes[1..], k - 1, rev);
      assert nodes[..k + 1] == [nodes[0]] + nodes[1..][..k];
    }
  }

  lemma {:induction false} LedAheadElsewhere(nodes: seq<Revision>, node: Revision, rev: Revision)
    requires node !in nodes
    ensures LedAhead(nodes, node, rev) == nodes
  {
    if nodes != [] {
      LedAheadElsewhere(nodes[1..], node, rev);
    }
  }

  lemma {:induction false} LedBackAt(nodes: seq<Revision>, k: nat, rev: Revision)
    requires k < |nodes| && forall i :: k < i < |nodes| ==> nodes[i] != nodes[k]
    ensures LedBack(nodes, nodes[k], rev) == [rev] + nodes[k..]
  {
    var n := |nodes| - 1;
    if k < n {
      LedBackAt(nodes[..n], k, rev);
      assert nodes[k..] == nodes[..n][k..] + [nodes[n]];
    }
  }

  /** In a list these are the views of the general rule. */
  lemma {:induction false} AppendToList(chain: seq<Revision>, i: nat, rev: Revision, j: nat)
    requires i < |chain| && j < |chain| && NoRepeats(chain)
    ensures AfterAppend(ListView(chain, j), chain[i], rev) == AppendedTo(chain, i, rev, j)
  {
    LedAheadAt(chain, i, rev);
    if j <= i {
      var ahead := chain[j..];
      assert ahead[i - j] == chain[i];
      LedAheadAt(ahead, i - j, rev);
      assert ahead[..i - j + 1] == chain[j..i + 1];
    } else {
      forall k | 0 <= k < |chain[j..]| ensures chain[j..][k] != chain[i] {
        assert chain[i] != chain[j + k];
      }
      LedAheadElsewhere(chain[j..], chain[i], rev);
    }
  }

  lemma {:induction false} PrependToList(chain: seq<Revision>, i: nat, rev: Revision, j: nat)
    requires i < |chain| && j < |chain| && NoRepeats(chain)
    ensures AfterPrepend(ListView(chain, j), chain[i], ListView(chain, i), rev) == PrependedTo(chain, i, rev, j)
  {
    var back := chain[..j + 1];
    if i <= j {
      assert back[i] == chain[i];
      LedBackAt(back, i, rev);
      assert back[i..] == chain[i..j + 1];
    } else {
      forall k | 0 <= k < |back| ensures back[k] != chain[i] {
        assert chain[k] != chain[i];
      }
    }
  }

  /** The new node ends a list, or starts one. */
  lemma {:induction false} NewNodeEndsList(chain: seq<Revision>, i: nat, rev: Revision)
    requires i < |chain| && NoRepeats(chain)
    requires Sees(rev, View(chain[..i + 1] + [rev], [rev], LedAhead(chain, chain[i], rev)))
    ensures Linked(chain[..i + 1] + [rev])
  {
    LedAheadAt(chain, i, rev);
  }

  lemma {:induction false} NewNodeStartsList(chain: seq<Revision>, i: nat, rev: Revision)
    requires i < |chain| && Sees(chain[|chain| - 1], PrependedTo(chain, i, rev, |chain| - 1))
    ensures Linked([rev] + chain[i..])
  {
    assert chain[i..|chain| - 1 + 1] == chain[i..];
  }

  /** Below the tip, the nodes cut off still count the old length, but list the new names;
      the two have the same number for all nodes only if at most one node was cut off. */
  lemma {:induction false} AppendLengths(chain: seq<Revision>, i: nat, rev: Revision)
    requires i < |chain|
    ensures forall j: nat :: i < j < |chain| ==> LenOf(AppendedTo(chain, i, rev, j)) == |chain|
    ensures forall j: nat :: j <= i ==> LenOf(AppendedTo(chain, i, rev, j)) == i + 2
    ensures (forall j: nat :: j < |chain| ==> LenOf(AppendedTo(chain, i, rev, j)) == |AppendedTo(chain, i, rev, j).all|)
            <==> i >= |chain| - 2
  {
    if i < |chain| - 2 {
      assert LenOf(AppendedTo(chain, i, rev, |chain| - 1)) == |chain|;
    }
  }

  /** Every old node is in the list it sees exactly after appending at the tip. */
  lemma {:induction false} AppendKeepsListIff(chain: seq<Revision>, i: nat, rev: Revision)
    requires i < |chain| && NoRepeats(chain) && rev !in chain
    ensures (forall j: nat :: j < |chain| ==> chain[j] in AppendedTo(chain, i, rev, j).all) <==> i == |chain| - 1
  {
    if i < |chain| - 1 {
      var last := |chain| - 1;
      assert forall k :: 0 <= k <= i ==> chain[k] != chain[last];
      assert chain[last] !in AppendedTo(chain, i, rev, last).all;
    } else {
      assert chain[..i + 1] == chain;
    }
  }

  lemma {:induction false} AppendAtTip(chain: seq<Revision>, rev: Revision, j: nat)
    requires j < |chain|
    ensures AppendedTo(chain, |chain| - 1, rev, j) == ListView(chain + [rev], j)
  {
    assert chain[..|chain|] == chain && (chain + [rev])[..j + 1] == chain[..j + 1];
    assert (chain + [rev])[j..] == chain[j..|chain|] + [rev];
  }

  /** Prepending above the origin leaves two lists: every node's length and names agree, but
      the nodes cut off do not see the new node. */
  lemma {:induction false} PrependKeepsListIff(chain: seq<Revision>, i: nat, rev: Revision)
    requires i < |chain| && NoRepeats(chain) && rev !in chain
    ensures (forall j: nat :: j < |chain| ==> rev in PrependedTo(chain, i, rev, j).all) <==> i == 0
    ensures forall j: nat :: j < |chain| ==> LenOf(PrependedTo(chain, i, rev, j)) == |PrependedTo(chain, i, rev, j).all|
    ensures forall j: nat :: j < i ==> PrependedTo(chain, i, rev, j) == ListView(chain, j)
  {
    if i > 0 {
      assert PrependedTo(chain, i, rev, 0).all == chain;
    }
  }

  class Revision {
    var prev: Revision?
    var next: Revision?
    const head: Source.Source

    constructor (s: Source.Source)
      ensures head == s && Linked([this]) && Sees(this, View([this], [this], [this]))
    {
      prev, next, head := null, null, s;
    }

    /** Moves n steps towards the tip, or towards the origin if n is negative, and stops
        at the end. */
    method Seek(n: int, ghost v: View) returns (curr: Revision)
      requires Sees(this, v)
      ensures curr == Landing(v, n)
      ensures 0 <= n < |v.ahead| ==> curr == v.ahead[n]
      ensures n >= |v.ahead| ==> curr == v.ahead[|v.ahead| - 1]
      ensures -|v.back| < n <= 0 ==> curr == v.back[|v.back| - 1 + n]
      ensures n <= -|v.back| ==> curr == v.back[0]
    {
      curr := this;
      if n > 0 {
        for k := 0 to n
          invariant curr == v.ahead[Nearest(k, |v.ahead|)]
        {
          if curr.next == null {
            assert v.ahead[Nearest(k, |v.ahead|)].next == null;
            break;
          }
          curr := curr.next;
        }
      }
      if n < 0 {
        for k := 0 to -n
          invariant curr == v.back[Nearest(|v.back| - 1 - k, |v.back|)]
        {
          if curr.prev == null {
            assert v.back[Nearest(|v.back| - 1 - k, |v.back|)].prev == null;
            break;
          }
          curr := curr.prev;
        }
      }
    }

    method Tip(ghost v: View) returns (curr: Revision)
      requires Sees(this, v)
      ensures curr == v.ahead[|v.ahead| - 1]
    {
      curr := this;
      ghost var k := 0;
      while curr.next != null
        invariant 0 <= k < |v.ahead| && curr == v.ahead[k]
        decreases |v.ahead| - k
      {
        curr := curr.next;
        k := k + 1;
      }
    }

    method Origin(ghost v: View) returns (curr: Revision)
      requires Sees(this, v)
      ensures curr == v.back[0]
    {
      curr := this;
      ghost var k := |v.back| - 1;
      while curr.prev != null
        invariant 0 <= k < |v.back| && curr == v.back[k]
        decreases k
      {
        curr := curr.prev;
        k := k - 1;
      }
    }

    method At(index: int, ghost v: View) returns (r: Revision)
      requires Sees(this, v)
      ensures r == v.all[Nearest(index, |v.all|)]
    {
      var origin := Origin(v);
      r := origin.Seek(index, View([v.all[0]], v.all, v.all));
    }

    /** Nothing lies ahead. */
    method AtTip(ghost v: View) returns (b: bool)
      requires Sees(this, v)
      ensures b <==> |v.ahead| == 1
    {
      b := next == null;
    }

    /** Nothing lies back. */
    method AtOrigin(ghost v: View) returns (b: bool)
      requires Sees(this, v)
      ensures b <==> |v.back| == 1
    {
      b := prev == null;
    }

    method Names(ghost v: View) returns (names: seq<string>)
      requires Sees(this, v)
      ensures names == NamesOf(v.all)
      ensures |names| == |v.all| && forall k :: 0 <= k < |names| ==> names[k] == v.all[k].head.name
    {
      names := [];
      var curr: Revision? := Origin(v);
      ghost var k := 0;
      while curr != null
        invariant 0 <= k <= |v.all| && curr == (if k == |v.all| then null else v.all[k])
        invariant names == NamesOf(v.all[..k])
        decreases |v.all| - k
      {
        names := names + [curr.head.name];
        curr := curr.next;
        k := k + 1;
      }
      assert v.all[..k] == v.all;
    }

    method Index(ghost v: View) returns (index: nat)
      requires Sees(this, v)
      ensures index == |v.back| - 1
    {
      index := 0;
      var curr := this;
      while curr.prev != null
        invariant index < |v.back| && curr == v.back[|v.back| - 1 - index]
        decreases |v.back| - index
      {
        index := index + 1;
        curr := curr.prev;
      }
    }

    method Len(ghost v: View) returns (len: nat)
      requires Sees(this, v)
      ensures len == LenOf(v) == |v.back| + |v.ahead| - 1
    {
      var count := Index(v);
      var curr := this;
      while curr.next != null
        invariant |v.back| - 1 <= count < LenOf(v) && curr == v.ahead[count - (|v.back| - 1)]
        decreases LenOf(v) - count
      {
        count := count + 1;
        curr := curr.next;
      }
      len := count + 1;
    }

    /** Whatever was linked before: every node that saw something still sees something, and so
        does the new node, which comes after this one. */
    method Append(s: Source.Source, ghost views: map<Revision, View>) returns (rev: Revision)
      requires this in views && AllSee(views)
      modifies this`next
      ensures fresh(rev) && rev.head == s
      ensures AllSee(AllAfterAppend(views, this, rev))
    {
      rev := new Revision(s);
      rev.prev := this;
      next := rev;
      AllSeeAfterAppend(views, this, rev);
    }

    /** And when the new node comes before this one. */
    method Prepend(s: Source.Source, ghost views: map<Revision, View>) returns (rev: Revision)
      requires this in views && AllSee(views)
      modifies this`prev
      ensures fresh(rev) && rev.head == s
      ensures AllSee(AllAfterPrepend(views, this, rev))
    {
      rev := new Revision(s);
      rev.next := this;
      prev := rev;
      AllSeeAfterPrepend(views, this, rev);
    }
  }
}
