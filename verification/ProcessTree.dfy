/**
 The process-tree worklist (routing/platform/platform_linux.go:24-46) and the order in which
 killTree walks it (routing/platform/unix.go:57-69). `procs` is the snapshot of /proc: each
 readable process with its parent.
 */
module ProcessTree {

  type Pid = int

  datatype Proc = Proc(pid: Pid, ppid: Pid)

  /** /proc lists a process once. */
  ghost predicate Snapshot(procs: seq<Proc>) {
    forall i, j :: 0 <= i < j < |procs| ==> procs[i].pid != procs[j].pid
  }

  function ChildrenOf(procs: seq<Proc>, p: Pid): seq<Pid> {
    if procs == [] then []
    else
      var front := ChildrenOf(procs[..|procs| - 1], p);
      var last := procs[|procs| - 1];
      if last.ppid == p then front + [last.pid] else front
  }

  ghost predicate IsChild(procs: seq<Proc>, c: Pid, p: Pid) {
    Proc(c, p) in procs
  }

  /** `a` is the k-th ancestor of `p`. */
  ghost predicate Ancestor(procs: seq<Proc>, a: Pid, p: Pid, k: nat)
    decreases k
  {
    if k == 0 then a == p else exists q :: IsChild(procs, p, q) && Ancestor(procs, a, q, k - 1)
  }

  ghost predicate Descendant(procs: seq<Proc>, p: Pid, root: Pid) {
    exists k: nat :: k > 0 && Ancestor(procs, root, p, k)
  }

  /** `p` is the root or below it. */
  ghost predicate Under(procs: seq<Proc>, root: Pid, p: Pid) {
    exists k: nat :: Ancestor(procs, root, p, k)
  }

  /** The worklist after i iterations of the growing loop. */
  function Work(procs: seq<Proc>, root: Pid, i: nat): seq<Pid> {
    if i == 0 then [root]
    else
      var w := Work(procs, root, i - 1);
      if i - 1 < |w| then w + ChildrenOf(procs, w[i - 1]) else w
  }

  ghost predicate Distinct(s: seq<Pid>) {
    forall i, j :: 0 <= i < j < |s| ==> s[i] != s[j]
  }

  // ---------------------------------------------------------------- children

  lemma {:induction false} ChildrenAre(procs: seq<Proc>, p: Pid)
    ensures forall c :: c in ChildrenOf(procs, p) <==> IsChild(procs, c, p)
    ensures Snapshot(procs) ==> Distinct(ChildrenOf(procs, p))
  {
    if procs != [] {
      var front, last := procs[..|procs| - 1], procs[|procs| - 1];
      ChildrenAre(front, p);
      assert procs == front + [last];
      assert forall c :: IsChild(procs, c, p) <==> IsChild(front, c, p) || last == Proc(c, p);
      if Snapshot(procs) {
        forall c | c in ChildrenOf(front, p)
          ensures c != last.pid
        {
          var i :| 0 <= i < |front| && front[i] == Proc(c, p);
          assert procs[i] == front[i];
        }
        assert last.pid !in ChildrenOf(front, p);
      }
    }
  }

  lemma OneParent(procs: seq<Proc>)
    requires Snapshot(procs)
    ensures forall c, p, q :: IsChild(procs, c, p) && IsChild(procs, c, q) ==> p == q
  {
    forall c, p, q | IsChild(procs, c, p) && IsChild(procs, c, q)
      ensures p == q
    {
      var i :| 0 <= i < |procs| && procs[i] == Proc(c, p);
      var j :| 0 <= j < |procs| && procs[j] == Proc(c, q);
    }
  }

  // ---------------------------------------------------------------- the loop is right

  /** Position of each entry's parent: an earlier, already expanded entry. */
  ghost predicate ParentBefore(procs: seq<Proc>, w: seq<Pid>, j: int, expanded: nat)
    requires 0 <= j < |w|
  {
    exists q :: 0 <= q < j && q < expanded && IsChild(procs, w[j], w[q])
  }

  ghost predicate WorkInv(procs: seq<Proc>, root: Pid, w: seq<Pid>, i: nat) {
    && |w| > 0 && w[0] == root && i <= |w|
    && Distinct(w)
    && (forall j :: 0 < j < |w| ==> ParentBefore(procs, w, j, i))
    && (forall q, c :: 0 <= q < i && IsChild(procs, c, w[q]) ==> c in w)
    && (forall j :: 0 <= j < |w| ==> Under(procs, root, w[j]))
  }

  /** A child about to be appended is not on the list yet. */
  lemma ChildIsNew(procs: seq<Proc>, root: Pid, w: seq<Pid>, i: nat, c: Pid)
    requires Snapshot(procs) && !Descendant(procs, root, root)
    requires WorkInv(procs, root, w, i) && i < |w| && IsChild(procs, c, w[i])
    ensures c !in w
    ensures Under(procs, root, c)
  {
    assert Under(procs, root, w[i]);
    var k: nat :| Ancestor(procs, root, w[i], k);
    assert Ancestor(procs, root, c, k + 1);
    OneParent(procs);
    forall j | 0 <= j < |w|
      ensures w[j] != c
    {
      assert j > 0 ==> ParentBefore(procs, w, j, i);
    }
  }

  lemma WorkInvStep(procs: seq<Proc>, root: Pid, w: seq<Pid>, i: nat)
    requires Snapshot(procs) && !Descendant(procs, root, root)
    requires WorkInv(procs, root, w, i) && i < |w|
    ensures WorkInv(procs, root, w + ChildrenOf(procs, w[i]), i + 1)
  {
    var done := i + 1;
    var cs := ChildrenOf(procs, w[i]);
    var w' := w + cs;
    ChildrenAre(procs, w[i]);
    forall c | c in cs
      ensures c !in w && IsChild(procs, c, w[i])
      ensures Under(procs, root, c)
    {
      ChildIsNew(procs, root, w, i, c);
    }
    forall j | 0 < j < |w'|
      ensures ParentBefore(procs, w', j, done)
    {
      if j < |w| {
        assert ParentBefore(procs, w, j, i);
        var q :| 0 <= q < j && q < i && IsChild(procs, w[j], w[q]);
        assert IsChild(procs, w'[j], w'[q]);
      } else {
        assert w'[j] == cs[j - |w|] && w'[j] in cs;
        assert IsChild(procs, w'[j], w'[i]);
      }
    }
    forall q, c | 0 <= q < done && IsChild(procs, c, w'[q])
      ensures c in w'
    {
      if q < i {
        assert c in w;
      } else {
        assert c in cs;
      }
    }
    forall j | 0 <= j < |w'|
      ensures Under(procs, root, w'[j])
    {
      if j >= |w| {
        assert w'[j] == cs[j - |w|] && w'[j] in cs;
      } else {
        assert w'[j] == w[j];
      }
    }
    assert Distinct(w') by {
      forall a, b | 0 <= a < b < |w'|
        ensures w'[a] != w'[b]
      {
        if a < |w| <= b {
          assert w'[b] == cs[b - |w|] && w'[b] in cs && w'[a] in w;
        }
      }
    }
  }

  lemma WorkInvStart(procs: seq<Proc>, root: Pid)
    ensures WorkInv(procs, root, [root], 0)
  {
    assert Ancestor(procs, root, root, 0);
  }

  /** A distinct list drawn from the snapshot and the root is short, so the loop must end. */
  lemma WorkBounded(procs: seq<Proc>, root: Pid, w: seq<Pid>, i: nat)
    requires WorkInv(procs, root, w, i)
    ensures |w| <= |procs| + 1
  {
    var pids := set p | p in procs :: p.pid;
    forall x | x in w
      ensures x in pids + {root}
    {
      var j :| 0 <= j < |w| && w[j] == x;
      if j > 0 {
        assert ParentBefore(procs, w, j, i);
        var q :| 0 <= q < j && q < i && IsChild(procs, w[j], w[q]);
        assert Proc(x, w[q]) in procs;
      }
    }
    PidCount(procs);
    DistinctFits(w, pids + {root});
  }

  lemma {:induction false} PidCount(procs: seq<Proc>)
    ensures |set p | p in procs :: p.pid| <= |procs|
  {
    if procs != [] {
      var front, last := procs[..|procs| - 1], procs[|procs| - 1];
      PidCount(front);
      assert procs == front + [last];
      assert (set p | p in procs :: p.pid) == (set p | p in front :: p.pid) + {last.pid};
    }
  }

  lemma {:induction false} DistinctFits(w: seq<Pid>, s: set<Pid>)
    requires Distinct(w) && forall x :: x in w ==> x in s
    ensures |w| <= |s|
  {
    if w != [] {
      var n := |w| - 1;
      assert w[n] in w;
      assert s == (s - {w[n]}) + {w[n]};
      forall x | x in w[..n] ensures x in s - {w[n]} { }
      DistinctFits(w[..n], s - {w[n]});
    }
  }

  /** Everything under the root is reached once the list is fully expanded. */
  lemma {:induction false} AllReached(procs: seq<Proc>, root: Pid, w: seq<Pid>, p: Pid, k: nat)
    requires WorkInv(procs, root, w, |w|) && Ancestor(procs, root, p, k)
    ensures p in w
    decreases k
  {
    if k > 0 {
      var q :| IsChild(procs, p, q) && Ancestor(procs, root, q, k - 1);
      AllReached(procs, root, w, q, k - 1);
      var j :| 0 <= j < |w| && w[j] == q;
    }
  }

  /** What the caller gets: root and its descendants, each once, parents before children. */
  ghost predicate Tree(procs: seq<Proc>, root: Pid, out: seq<Pid>) {
    && Distinct(out)
    && (forall p :: p in out <==> p == root || Descendant(procs, p, root))
    && (forall i, j :: 0 <= i < |out| && 0 <= j < |out| && IsChild(procs, out[j], out[i]) ==> i < j)
  }

  lemma WorkIsTree(procs: seq<Proc>, root: Pid, w: seq<Pid>)
    requires Snapshot(procs) && !Descendant(procs, root, root) && WorkInv(procs, root, w, |w|)
    ensures Tree(procs, root, w)
  {
    forall p
      ensures p in w <==> p == root || Descendant(procs, p, root)
    {
      if p in w {
        var j :| 0 <= j < |w| && w[j] == p;
        assert Under(procs, root, w[j]);
        var k: nat :| Ancestor(procs, root, w[j], k);
      }
      if Descendant(procs, p, root) {
        var k: nat :| k > 0 && Ancestor(procs, root, p, k);
        AllReached(procs, root, w, p, k);
      }
    }
    OneParent(procs);
    forall i, j | 0 <= i < |w| && 0 <= j < |w| && IsChild(procs, w[j], w[i])
      ensures i < j
    {
      if j == 0 {
        assert Under(procs, root, w[i]);
        var k: nat :| Ancestor(procs, root, w[i], k);
        assert Ancestor(procs, root, root, k + 1);
      } else {
        assert ParentBefore(procs, w, j, |w|);
        var q :| 0 <= q < j && IsChild(procs, w[j], w[q]);
      }
    }
  }

  method BuildTree(procs: seq<Proc>, root: Pid) returns (out: seq<Pid>)
    requires Snapshot(procs) && !Descendant(procs, root, root)
    ensures Tree(procs, root, out)
  {
    var children: map<Pid, seq<Pid>> := map[];
    for n := 0 to |procs|
      invariant forall p :: ChildrenOf(procs[..n], p) == if p in children then children[p] else []
    {
      assert procs[..n + 1][..n] == procs[..n];
      var pp := procs[n].ppid;
      children := children[pp := (if pp in children then children[pp] else []) + [procs[n].pid]];
    }
    assert procs[..|procs|] == procs;
    out := [root];
    var i := 0;
    WorkInvStart(procs, root);
    while i < |out|
      invariant WorkInv(procs, root, out, i)
      decreases |procs| + 1 - i
    {
      WorkInvStep(procs, root, out, i);
      WorkBounded(procs, root, out, i);
      out := out + if out[i] in children then children[out[i]] else [];
      i := i + 1;
    }
    WorkIsTree(procs, root, out);
  }

  /** The reverse walk signals every child before its parent, and every process of the tree once. */
  method KillOrder(procs: seq<Proc>, root: Pid) returns (signalled: seq<Pid>)
    requires Snapshot(procs) && !Descendant(procs, root, root)
    ensures Distinct(signalled)
    ensures forall p :: p in signalled <==> p == root || Descendant(procs, p, root)
    ensures forall i, j :: 0 <= i < |signalled| && 0 <= j < |signalled| && IsChild(procs, signalled[j], signalled[i]) ==> j < i
  {
    var pids := BuildTree(procs, root);
    signalled := [];
    var i := |pids|;
    while i > 0
      invariant 0 <= i <= |pids| && |signalled| == |pids| - i
      invariant forall k :: 0 <= k < |signalled| ==> signalled[k] == pids[|pids| - 1 - k]
    {
      i := i - 1;
      signalled := signalled + [pids[i]];
    }
    forall p
      ensures p in signalled <==> p in pids
    {
      if p in pids {
        var k :| 0 <= k < |pids| && pids[k] == p;
        assert signalled[|pids| - 1 - k] == p;
      }
    }
  }

  datatype Signal = ToGroup(pgid: Pid) | ToProcess(pid: Pid)

  /** The first signal goes to a child of the second one's process. */
  ghost predicate ChildSignal(procs: seq<Proc>, a: Signal, b: Signal) {
    a.ToProcess? && b.ToProcess? && IsChild(procs, a.pid, b.pid)
  }

  /**
   killTree: the group if the root leads one, then the tree from the leaves up; only the root when
   /proc could not be read.
   */
  method KillTree(procs: seq<Proc>, readable: bool, leadsGroup: bool, root: Pid) returns (signals: seq<Signal>)
    requires Snapshot(procs) && (readable ==> !Descendant(procs, root, root))
    ensures leadsGroup <==> ToGroup(root) in signals
    ensures forall i :: 0 <= i < |signals| && signals[i].ToGroup? ==> i == 0 && signals[i].pgid == root
    ensures forall p :: ToProcess(p) in signals <==> p == root || (readable && Descendant(procs, p, root))
    ensures readable ==>
              forall i, j :: 0 <= i < |signals| && 0 <= j < |signals| && ChildSignal(procs, signals[j], signals[i]) ==> j < i
    ensures forall i, j :: 0 <= i < j < |signals| ==> signals[i] != signals[j]
  {
    var pids := [];
    if readable {
      pids := KillOrder(procs, root);
    }
    signals := [];
    if leadsGroup {
      signals := [ToGroup(root)];
    }
    ghost var k := |signals|;
    for i := 0 to |pids|
      invariant |signals| == k + i && (k == 0 || (k == 1 && signals[0] == ToGroup(root)))
      invariant forall j :: k <= j < |signals| ==> signals[j] == ToProcess(pids[j - k])
    {
      signals := signals + [ToProcess(pids[i])];
    }
    if |pids| == 0 {
      assert !readable by {
        assert readable ==> root in pids;
      }
      signals := signals + [ToProcess(root)];
    } else {
      InSignals(pids, signals, k);
    }
  }

  lemma InSignals(pids: seq<Pid>, signals: seq<Signal>, k: nat)
    requires |signals| == k + |pids| && (forall j :: 0 <= j < k ==> signals[j].ToGroup?)
    requires forall j :: k <= j < |signals| ==> signals[j] == ToProcess(pids[j - k])
    ensures forall p :: ToProcess(p) in signals <==> p in pids
  {
    forall p
      ensures ToProcess(p) in signals <==> p in pids
    {
      if p in pids {
        var i :| 0 <= i < |pids| && pids[i] == p;
        assert signals[k + i] == ToProcess(p);
      }
    }
  }

  // ---------------------------------------------------------------- exactly when it ends

  ghost predicate LoopEnds(procs: seq<Proc>, root: Pid) {
    exists i: nat :: |Work(procs, root, i)| <= i
  }

  lemma {:induction false} WorkKeepsInv(procs: seq<Proc>, root: Pid, i: nat) returns (w: seq<Pid>, done: nat)
    requires Snapshot(procs) && !Descendant(procs, root, root)
    ensures w == Work(procs, root, i) && (i <= |w| ==> done == i)
    ensures WorkInv(procs, root, w, done)
  {
    if i == 0 {
      w, done := [root], 0;
      WorkInvStart(procs, root);
    } else {
      w, done := WorkKeepsInv(procs, root, i - 1);
      if i - 1 < |w| {
        WorkInvStep(procs, root, w, done);
        w, done := w + ChildrenOf(procs, w[done]), done + 1;
      }
    }
  }

  /** Some entry that still has to be expanded is an ancestor of the root. */
  lemma {:induction false} CycleKeepsGrowing(procs: seq<Proc>, root: Pid, i: nat)
    requires Descendant(procs, root, root)
    ensures exists q, k: nat :: i <= q < |Work(procs, root, i)| && Ancestor(procs, Work(procs, root, i)[q], root, k)
  {
    var w := Work(procs, root, i);
    if i == 0 {
      assert Ancestor(procs, w[0], root, 0);
    } else {
      var v := Work(procs, root, i - 1);
      CycleKeepsGrowing(procs, root, i - 1);
      var q, k: nat :| i - 1 <= q < |v| && Ancestor(procs, v[q], root, k);
      if q > i - 1 {
        assert w[q] == v[q];
      } else {
        var c, m := ChildTowards(procs, root, v[q], k);
        ChildrenAre(procs, v[q]);
        var cs := ChildrenOf(procs, v[q]);
        var n :| 0 <= n < |cs| && cs[n] == c;
        assert w[|v| + n] == c;
        assert Ancestor(procs, w[|v| + n], root, m);
      }
    }
  }

  /** An ancestor of a root that descends from itself has a child that is also one. */
  lemma ChildTowards(procs: seq<Proc>, root: Pid, a: Pid, k: nat) returns (c: Pid, m: nat)
    requires Descendant(procs, root, root) && Ancestor(procs, a, root, k)
    ensures IsChild(procs, c, a) && Ancestor(procs, c, root, m)
  {
    if k > 0 {
      c, m := NearestBelow(procs, root, a, k);
    } else {
      var j: nat :| j > 0 && Ancestor(procs, root, root, j);
      c, m := NearestBelow(procs, root, a, j);
    }
  }

  lemma {:induction false} NearestBelow(procs: seq<Proc>, p: Pid, a: Pid, k: nat) returns (c: Pid, m: nat)
    requires k > 0 && Ancestor(procs, a, p, k)
    ensures IsChild(procs, c, a) && Ancestor(procs, c, p, m)
    decreases k
  {
    var q :| IsChild(procs, p, q) && Ancestor(procs, a, q, k - 1);
    if k == 1 {
      c, m := p, 0;
    } else {
      c, m := NearestBelow(procs, q, a, k - 1);
      m := m + 1;
    }
  }

  /** The growing loop ends exactly when the root is not its own descendant. */
  lemma LoopEndsExactlyWhen(procs: seq<Proc>, root: Pid)
    requires Snapshot(procs)
    ensures LoopEnds(procs, root) <==> !Descendant(procs, root, root)
  {
    if Descendant(procs, root, root) {
      forall i: nat
        ensures |Work(procs, root, i)| > i
      {
        CycleKeepsGrowing(procs, root, i);
      }
    } else {
      var i := |procs| + 1;
      var w, done := WorkKeepsInv(procs, root, i);
      WorkBounded(procs, root, w, done);
      assert |w| <= i;
    }
  }

  /** Two processes that are each other's parents: the loop does not end. */
  lemma CycleNeverEnds(a: Pid, b: Pid)
    requires a != b
    ensures var procs := [Proc(a, b), Proc(b, a)];
            Snapshot(procs) && Descendant(procs, a, a) && !LoopEnds(procs, a)
  {
    var procs := [Proc(a, b), Proc(b, a)];
    assert IsChild(procs, a, b) && IsChild(procs, b, a);
    assert Ancestor(procs, a, a, 0);
    assert Ancestor(procs, a, b, 1);
    assert Ancestor(procs, a, a, 2);
    LoopEndsExactlyWhen(procs, a);
  }
}
