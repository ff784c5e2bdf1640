/**
 The task tools of internal/ai/tools.go that move the blocked-by graph: block,
 complete, scratch, unscratch and delete.

 One user's tasks are modelled and each tool call is one step. Child tasks go with
 their parent when it is deleted, and references to a deleted blocker become NULL,
 as the schema says.
 */
module TaskGraph {
  import opened Options

  datatype Status = Todo | InProgress | Blocked | Done | Scratched

  datatype Task = Task(status: Status, blocker: Option<int>, parent: Option<int>, monthGoal: bool)

  type Table = map<int, Task>

  predicate Active(t: Task) { t.status != Done && t.status != Scratched }

  // ----- links -----

  /** A walk along single links, from its first task to its last. */
  ghost predicate Walk(next: map<int, int>, p: seq<int>) {
    p != [] && forall i :: 0 <= i < |p| - 1 ==> p[i] in next && next[p[i]] == p[i + 1]
  }

  ghost predicate Walks(next: map<int, int>, p: seq<int>, from: int, to: int) {
    Walk(next, p) && p[0] == from && p[|p| - 1] == to
  }

  ghost predicate Reach(next: map<int, int>, from: int, to: int) { exists p :: Walks(next, p, from, to) }

  /** Every link goes down in some numbering. */
  ghost predicate Ranks(next: map<int, int>, rank: map<int, nat>) {
    forall t :: t in next ==> t in rank && next[t] in rank && rank[next[t]] < rank[t]
  }

  ghost predicate Acyclic(next: map<int, int>) { exists rank :: Ranks(next, rank) }

  lemma {:induction false} ReachSelf(next: map<int, int>, t: int)
    ensures Reach(next, t, t)
  {
    assert Walks(next, [t], t, t);
  }

  lemma {:induction false} ReachStep(next: map<int, int>, from: int, to: int)
    requires from in next && Reach(next, next[from], to)
    ensures Reach(next, from, to)
  {
    var p :| Walks(next, p, next[from], to);
    var q := [from] + p;
    assert forall i :: 0 < i < |q| ==> q[i] == p[i - 1];
    assert Walks(next, q, from, to);
  }

  lemma {:induction false} ReachCases(next: map<int, int>, from: int, to: int)
    requires Reach(next, from, to) && from != to
    ensures from in next && Reach(next, next[from], to)
  {
    var p :| Walks(next, p, from, to);
    assert |p| > 1 && next[p[0]] == p[1];
    var q := p[1..];
    assert forall i :: 0 <= i < |q| ==> q[i] == p[i + 1];
    assert Walks(next, q, next[from], to);
  }

  lemma {:induction false} WalkGoesDown(next: map<int, int>, rank: map<int, nat>, p: seq<int>)
    requires Ranks(next, rank) && Walk(next, p) && |p| > 1
    ensures p[0] in rank && p[|p| - 1] in rank && rank[p[|p| - 1]] < rank[p[0]]
  {
    var a, b := p[0], p[1];
    assert a in next && next[a] == b && rank[b] < rank[a];
    if |p| > 2 {
      var q := p[1..];
      assert forall i :: 0 <= i < |q| ==> q[i] == p[i + 1];
      WalkGoesDown(next, rank, q);
    }
  }

  /** An acyclic chain never comes back to where it was. */
  lemma {:induction false} NoClosedWalk(next: map<int, int>, p: seq<int>)
    requires Acyclic(next) && Walk(next, p) && |p| > 1
    ensures p[0] != p[|p| - 1]
  {
    var rank :| Ranks(next, rank);
    WalkGoesDown(next, rank, p);
  }

  function RankOf(rank: map<int, nat>, t: int): nat { if t in rank then rank[t] else 0 }

  /** Lifting everything that leads to `id` above `to` makes room for the new link. */
  lemma {:induction false} LinkKeepsAcyclic(next: map<int, int>, id: int, to: int)
    requires Acyclic(next) && !Reach(next, to, id)
    ensures Acyclic(next[id := to])
  {
    hide Reach;
    var rank :| Ranks(next, rank);
    var lift := RankOf(rank, to) + 1;
    var rank' := map t | t in rank.Keys + {id, to} :: RankOf(rank, t) + if Reach(next, t, id) then lift else 0;
    var next' := next[id := to];
    ReachSelf(next, id);
    forall t | t in next' ensures t in rank' && next'[t] in rank' && rank'[next'[t]] < rank'[t] {
      if t != id {
        if Reach(next, t, id) { ReachCases(next, t, id); }
        if Reach(next, next[t], id) { ReachStep(next, t, id); }
      }
    }
    assert Ranks(next', rank');
  }

  lemma {:induction false} FewerLinksAcyclic(next: map<int, int>, next': map<int, int>)
    requires Acyclic(next) && forall t :: t in next' ==> t in next && next'[t] == next[t]
    ensures Acyclic(next')
  {
    var rank :| Ranks(next, rank);
    assert Ranks(next', rank);
  }

  function Blockers(tasks: Table): map<int, int> {
    map t | t in tasks && tasks[t].blocker.Some? :: tasks[t].blocker.value
  }

  function Parents(tasks: Table): map<int, int> {
    map t | t in tasks && tasks[t].parent.Some? :: tasks[t].parent.value
  }

  /** A task and all its subtasks, at any depth. */
  ghost function Tree(tasks: Table, root: int): set<int> {
    set t | t in tasks && root in tasks && Reach(Parents(tasks), t, root)
  }

  ghost predicate IsBelow(tasks: Table, t: int, root: int) {
    t in tasks && tasks[t].parent.Some? && Reach(Parents(tasks), tasks[t].parent.value, root)
  }

  ghost function OpenBelow(tasks: Table, root: int): set<int> {
    set t | t in tasks && IsBelow(tasks, t, root) && Active(tasks[t])
  }

  // ----- the statements -----

  function Closed(t: Task): Task { t.(status := Done, blocker := None) }

  function Unblocked(t: Task, gone: set<int>): Task {
    if t.status == Blocked && t.blocker.Some? && t.blocker.value in gone then t.(status := Todo, blocker := None) else t
  }

  function Unblock(tasks: Table, gone: set<int>): Table { map t | t in tasks :: Unblocked(tasks[t], gone) }

  function Close(tasks: Table, id: int): Table { if id in tasks then tasks[id := Closed(tasks[id])] else tasks }

  /** The open month goal whose last open session the task was. */
  predicate Finishes(tasks: Table, id: int) {
    id in tasks && tasks[id].parent.Some? && ClosesGoal(tasks, tasks[id].parent.value)
  }

  predicate ClosesGoal(tasks: Table, goal: int) {
    && goal in tasks && tasks[goal].monthGoal && Active(tasks[goal])
    && forall t :: t in tasks && tasks[t].parent == Some(goal) ==> !Active(tasks[t])
  }

  /** DELETE with its cascades. */
  function Remove(tasks: Table, tree: set<int>): Table {
    map t | t in tasks && t !in tree ::
      if tasks[t].blocker.Some? && tasks[t].blocker.value in tree then tasks[t].(blocker := None) else tasks[t]
  }

  // ----- the tools -----

  datatype Op =
    | Block(id: int, blocker: int)
    | Complete(id: int)
    | Scratch(id: int)
    | Unscratch(id: int)
    | Delete(id: int)

  ghost predicate Accepted(tasks: Table, op: Op) {
    match op
    case Block(id, blocker) =>
      && id != 0 && blocker != 0 && id != blocker
      && blocker in tasks && Active(tasks[blocker])
      && id in tasks
      && !Reach(Blockers(tasks), blocker, id)
    case Complete(id) => id != 0 && OpenBelow(tasks, id) == {}
    case Scratch(id) => id != 0 && id in tasks
    case Unscratch(id) => id != 0 && id in tasks
    case Delete(id) => id != 0
  }

  function Completed(tasks: Table, id: int): Table {
    var done := Unblock(Close(tasks, id), {id});
    if Finishes(done, id) then
      var goal := done[id].parent.value;
      Unblock(Close(done, goal), {goal})
    else done
  }

  /** One tool call; a refused one changes nothing. */
  ghost function Do(tasks: Table, op: Op): Table {
    if !Accepted(tasks, op) then tasks
    else
      match op
      case Block(id, blocker) => tasks[id := tasks[id].(status := Blocked, blocker := Some(blocker))]
      case Complete(id) => Completed(tasks, id)
      case Scratch(id) =>
        if tasks[id].status == Scratched then tasks
        else Unblock(tasks[id := tasks[id].(status := Scratched, blocker := None)], {id})
      case Unscratch(id) =>
        if tasks[id].status == Todo then tasks else tasks[id := tasks[id].(status := Todo, blocker := None)]
      case Delete(id) =>
        var tree := Tree(tasks, id);
        Remove(Unblock(tasks, tree), tree)
  }

  ghost function DoAll(tasks: Table, ops: seq<Op>): Table
    decreases |ops|
  {
    if ops == [] then tasks else DoAll(Do(tasks, ops[0]), ops[1..])
  }

  /** Blocked tasks and only they have a blocker, it is an active task, and no chain of blockers closes. */
  ghost predicate TaskOk(tasks: Table, id: int)
    requires id in tasks
  {
    && (tasks[id].status == Blocked <==> tasks[id].blocker.Some?)
    && (tasks[id].blocker.Some? ==> tasks[id].blocker.value in tasks && Active(tasks[tasks[id].blocker.value]))
  }

  ghost predicate Invariant(tasks: Table) {
    && (forall id :: id in tasks ==> TaskOk(tasks, id))
    && Acyclic(Blockers(tasks))
  }

  // ----- the tools, run on the table -----

  class Tasks {
    var tasks: Table

    constructor (tasks: Table)
      ensures this.tasks == tasks
    {
      this.tasks := tasks;
    }

    /** The given tasks and everything below them, layer by layer, as the recursive query collects it. */
    method Descend(roots: set<int>) returns (tree: set<int>)
      requires roots <= tasks.Keys
      ensures forall t :: t in tree <==> t in tasks && LeadsTo(tasks, t, roots)
    {
      hide Layer, LeadsTo;
      tree := roots;
      var layer := Layer(tasks, tree);
      RootsLead(tasks, roots);
      while layer != {}
        invariant roots <= tree <= tasks.Keys
        invariant layer == Layer(tasks, tree)
        invariant forall t :: t in tree ==> LeadsTo(tasks, t, roots)
        decreases tasks.Keys - tree
      {
        LayerLeads(tasks, tree, roots);
        tree := tree + layer;
        layer := Layer(tasks, tree);
      }
      NobodyLeft(tasks, tree, roots);
    }

    method OpenSubtaskCount(root: int) returns (n: nat)
      ensures n == |OpenBelow(tasks, root)|
    {
      var children := set t | t in tasks && tasks[t].parent == Some(root);
      var below := Descend(children);
      var open := set t | t in below && Active(tasks[t]);
      BelowIsChildTrees(tasks, root, children, below);
      forall t ensures t in open <==> t in OpenBelow(tasks, root) {}
      assert open == OpenBelow(tasks, root);
      n := |open|;
    }

    /** Follows the blockers from one task; the numbering is what makes the walk end. */
    method ChainHolds(from: int, id: int) returns (found: bool)
      requires Acyclic(Blockers(tasks))
      ensures found == Reach(Blockers(tasks), from, id)
    {
      ghost var next := Blockers(tasks);
      ghost var rank :| Ranks(next, rank);
      var cur := from;
      while cur != id && cur in tasks && tasks[cur].blocker.Some?
        invariant Reach(next, from, id) <==> Reach(next, cur, id)
        decreases RankOf(rank, cur)
      {
        if Reach(next, cur, id) { ReachCases(next, cur, id); }
        if Reach(next, next[cur], id) { ReachStep(next, cur, id); }
        cur := tasks[cur].blocker.value;
      }
      found := cur == id;
      if found { ReachSelf(next, id); }
      if cur != id && Reach(next, cur, id) { ReachCases(next, cur, id); }
    }

    method BlockTask(id: int, blocker: int) returns (ok: bool)
      requires Invariant(tasks)
      modifies this
      ensures ok == Accepted(old(tasks), Block(id, blocker)) && tasks == Do(old(tasks), Block(id, blocker))
    {
      if id == 0 || blocker == 0 || id == blocker {
        return false;
      }
      if blocker !in tasks || !Active(tasks[blocker]) || id !in tasks {
        return false;
      }
      var cycle := ChainHolds(blocker, id);
      if cycle {
        return false;
      }
      tasks := tasks[id := tasks[id].(status := Blocked, blocker := Some(blocker))];
      return true;
    }

    method CompleteTask(id: int) returns (ok: bool)
      modifies this
      ensures ok == Accepted(old(tasks), Complete(id)) && tasks == Do(old(tasks), Complete(id))
    {
      if id == 0 {
        return false;
      }
      var open := OpenSubtaskCount(id);
      if open > 0 {
        return false;
      }
      tasks := Close(tasks, id);
      tasks := Unblock(tasks, {id});
      if Finishes(tasks, id) {
        var goal := tasks[id].parent.value;
        tasks := Close(tasks, goal);
        tasks := Unblock(tasks, {goal});
      }
      return true;
    }

    method ScratchTask(id: int, unscratch: bool) returns (ok: bool)
      modifies this
      ensures var op := if unscratch then Unscratch(id) else Scratch(id);
              ok == Accepted(old(tasks), op) && tasks == Do(old(tasks), op)
    {
      if id == 0 || id !in tasks {
        return false;
      }
      var next := if unscratch then Todo else Scratched;
      if tasks[id].status != next {
        tasks := tasks[id := tasks[id].(status := next, blocker := None)];
        if next == Scratched { tasks := Unblock(tasks, {id}); }
      }
      return true;
    }

    method DeleteTask(id: int) returns (ok: bool)
      modifies this
      ensures ok == Accepted(old(tasks), Delete(id)) && tasks == Do(old(tasks), Delete(id))
    {
      hide Unblock, Remove, Tree, Reach, LeadsTo;
      if id == 0 {
        return false;
      }
      var tree := Descend(if id in tasks then {id} else {});
      LedToIsTree(tasks, id, tree);
      tasks := Unblock(tasks, tree);
      tasks := Remove(tasks, tree);
      return true;
    }
  }

  ghost predicate LeadsTo(tasks: Table, t: int, roots: set<int>) {
    exists r :: r in roots && Reach(Parents(tasks), t, r)
  }

  lemma {:induction false} LeadsToOne(tasks: Table, id: int)
    ensures forall t :: LeadsTo(tasks, t, {id}) <==> Reach(Parents(tasks), t, id)
    ensures forall t :: !LeadsTo(tasks, t, {})
  {
    hide Reach;
    forall t | Reach(Parents(tasks), t, id) ensures LeadsTo(tasks, t, {id}) { assert id in {id}; }
  }

  lemma {:induction false} LedToIsTree(tasks: Table, id: int, tree: set<int>)
    requires forall t :: t in tree <==> t in tasks && LeadsTo(tasks, t, if id in tasks then {id} else {})
    ensures tree == Tree(tasks, id)
  {
    hide Reach, LeadsTo;
    LeadsToOne(tasks, id);
    forall t ensures t in tree <==> t in Tree(tasks, id) {}
  }

  function Layer(tasks: Table, tree: set<int>): (layer: set<int>)
    ensures layer <= tasks.Keys && layer !! tree
  {
    set t | t in tasks && t !in tree && tasks[t].parent.Some? && tasks[t].parent.value in tree
  }

  lemma {:induction false} RootsLead(tasks: Table, roots: set<int>)
    ensures forall t :: t in roots ==> LeadsTo(tasks, t, roots)
  {
    hide Reach;
    forall t | t in roots ensures LeadsTo(tasks, t, roots) { ReachSelf(Parents(tasks), t); }
  }

  lemma {:induction false} LayerLeads(tasks: Table, tree: set<int>, roots: set<int>)
    requires forall t :: t in tree ==> LeadsTo(tasks, t, roots)
    ensures forall t :: t in Layer(tasks, tree) ==> LeadsTo(tasks, t, roots)
  {
    hide Reach;
    forall t | t in Layer(tasks, tree) ensures LeadsTo(tasks, t, roots) {
      assert LeadsTo(tasks, tasks[t].parent.value, roots);
      var r :| r in roots && Reach(Parents(tasks), tasks[t].parent.value, r);
      ReachStep(Parents(tasks), t, r);
    }
  }

  lemma {:induction false} NobodyLeft(tasks: Table, tree: set<int>, roots: set<int>)
    requires roots <= tree && Layer(tasks, tree) == {}
    ensures forall t :: t in tasks && LeadsTo(tasks, t, roots) ==> t in tree
  {
    forall t | t in tasks && LeadsTo(tasks, t, roots) ensures t in tree {
      var r :| r in roots && Reach(Parents(tasks), t, r);
      var p :| Walks(Parents(tasks), p, t, r);
      forall u | u in tasks && tasks[u].parent.Some? && tasks[u].parent.value in tree ensures u in tree {
        assert u !in Layer(tasks, tree);
      }
      AllTheWayUp(tasks, tree, p);
    }
  }

  /** A set that holds every child of its members holds whoever leads up to one. */
  lemma {:induction false} AllTheWayUp(tasks: Table, tree: set<int>, p: seq<int>)
    requires forall t :: t in tasks && tasks[t].parent.Some? && tasks[t].parent.value in tree ==> t in tree
    requires Walk(Parents(tasks), p) && p[|p| - 1] in tree
    ensures p[0] in tree
  {
    if |p| > 1 {
      assert p[0] in Parents(tasks) && Parents(tasks)[p[0]] == p[1];
      assert forall i :: 0 <= i < |p| - 1 ==> p[1..][i] == p[i + 1];
      AllTheWayUp(tasks, tree, p[1..]);
    }
  }

  lemma {:induction false} BelowIsChildTrees(tasks: Table, root: int, children: set<int>, below: set<int>)
    requires children == set t | t in tasks && tasks[t].parent == Some(root)
    requires forall t :: t in below <==> t in tasks && LeadsTo(tasks, t, children)
    ensures forall t :: t in below <==> IsBelow(tasks, t, root)
  {
    hide Reach;
    var up := Parents(tasks);
    forall t | t in below ensures IsBelow(tasks, t, root) {
      var r :| r in children && Reach(up, t, r);
      ReachSelf(up, root);
      if t != r {
        ReachCases(up, t, r);
        ReachVia(up, tasks[t].parent.value, r);
      }
    }
    forall t | IsBelow(tasks, t, root) ensures t in below {
      TopChild(tasks, root, t);
      assert LeadsTo(tasks, t, children);
    }
  }

  lemma {:induction false} ReachVia(next: map<int, int>, from: int, mid: int)
    requires Reach(next, from, mid) && mid in next
    ensures Reach(next, from, next[mid])
  {
    var p :| Walks(next, p, from, mid);
    var q := p + [next[mid]];
    assert forall i :: 0 <= i < |p| ==> q[i] == p[i];
    assert Walks(next, q, from, next[mid]);
  }

  lemma {:induction false} TopChild(tasks: Table, root: int, t: int)
    requires IsBelow(tasks, t, root)
    ensures exists r :: r in tasks && tasks[r].parent == Some(root) && Reach(Parents(tasks), t, r)
  {
    var up := Parents(tasks);
    var p :| Walks(up, p, tasks[t].parent.value, root);
    if |p| == 1 {
      ReachSelf(up, t);
      assert tasks[t].parent == Some(root);
    } else {
      var q := [t] + p[..|p| - 1];
      assert p[|p| - 2] in up && up[p[|p| - 2]] == root;
      assert forall i :: 0 < i < |q| ==> q[i] == p[i - 1];
      assert Walks(up, q, t, p[|p| - 2]);
      assert Reach(up, t, p[|p| - 2]);
    }
  }

  // ----- every run -----

  lemma {:induction false} UnblockKeeps(tasks: Table, tasks': Table, done: int)
    requires Invariant(tasks)
    requires done in tasks && tasks'.Keys == tasks.Keys
    requires tasks' == Unblock(tasks[done := tasks[done].(status := tasks'[done].status, blocker := None)], {done})
    requires tasks'[done].status == Done || tasks'[done].status == Scratched
    ensures Invariant(tasks')
    ensures forall t :: t in tasks' ==> tasks'[t].blocker != Some(done)
    ensures forall t :: t in tasks' ==> tasks'[t].parent == tasks[t].parent
  {
    hide Reach, Acyclic;
    var mid := tasks[done := tasks[done].(status := tasks'[done].status, blocker := None)];
    assert forall t :: t in tasks' ==> tasks'[t] == Unblocked(mid[t], {done});
    forall t | t in tasks' ensures TaskOk(tasks', t) && tasks'[t].blocker != Some(done) {
      assert TaskOk(tasks, t);
    }
    FewerLinksAcyclic(Blockers(tasks), Blockers(tasks'));
  }

  lemma {:induction false} CloseKeeps(tasks: Table, id: int)
    requires Invariant(tasks)
    ensures Invariant(Unblock(Close(tasks, id), {id}))
  {
    hide Invariant;
    var tasks' := Unblock(Close(tasks, id), {id});
    if id in tasks {
      assert tasks'[id].status == Done;
      UnblockKeeps(tasks, tasks', id);
    } else {
      NobodyWaits(tasks, id);
      assert tasks' == tasks;
    }
  }

  lemma {:induction false} NobodyWaits(tasks: Table, id: int)
    requires Invariant(tasks) && id !in tasks
    ensures Unblock(tasks, {id}) == tasks
  {
    forall t | t in tasks ensures Unblocked(tasks[t], {id}) == tasks[t] { assert TaskOk(tasks, t); }
  }

  lemma {:induction false} BlockKeeps(tasks: Table, id: int, blocker: int)
    requires Invariant(tasks) && Accepted(tasks, Block(id, blocker))
    ensures Invariant(Do(tasks, Block(id, blocker)))
  {
    hide Reach, Acyclic;
    var tasks' := Do(tasks, Block(id, blocker));
    forall t | t in tasks' ensures TaskOk(tasks', t) {
      assert TaskOk(tasks, t);
    }
    LinkKeepsAcyclic(Blockers(tasks), id, blocker);
    assert Blockers(tasks') == Blockers(tasks)[id := blocker];
  }

  lemma {:induction false} UnscratchKeeps(tasks: Table, id: int)
    requires Invariant(tasks) && id in tasks
    ensures Invariant(tasks[id := tasks[id].(status := Todo, blocker := None)])
  {
    hide Reach, Acyclic;
    var tasks' := tasks[id := tasks[id].(status := Todo, blocker := None)];
    forall t | t in tasks' ensures TaskOk(tasks', t) { assert TaskOk(tasks, t); }
    FewerLinksAcyclic(Blockers(tasks), Blockers(tasks'));
  }

  /** What is left after a delete waits for nothing that is gone. */
  lemma {:induction false} LeftAfterDelete(tasks: Table, tree: set<int>, t: int)
    requires t in tasks && TaskOk(tasks, t)
    ensures var tasks' := Remove(Unblock(tasks, tree), tree);
            && (t in tasks' <==> t !in tree)
            && (t !in tree ==> tasks'[t] == Unblocked(tasks[t], tree)
                               && (tasks'[t].blocker.Some? ==>
                                   tasks'[t] == tasks[t] && tasks[t].blocker.value !in tree))
  {
    hide Reach;
    assert Unblock(tasks, tree)[t] == Unblocked(tasks[t], tree);
  }

  lemma {:induction false} DeleteKeeps(tasks: Table, tree: set<int>)
    requires Invariant(tasks)
    ensures Invariant(Remove(Unblock(tasks, tree), tree))
  {
    hide Reach, Acyclic, Remove, Unblock;
    var tasks' := Remove(Unblock(tasks, tree), tree);
    OnlyRemoves(tasks, tree);
    forall t | t in tasks' ensures TaskOk(tasks', t) && (tasks'[t].blocker.Some? ==> tasks'[t] == tasks[t]) {
      assert TaskOk(tasks, t);
      LeftAfterDelete(tasks, tree, t);
      if tasks'[t].blocker.Some? {
        var b := tasks[t].blocker.value;
        assert TaskOk(tasks, b);
        LeftAfterDelete(tasks, tree, b);
      }
    }
    FewerLinksAcyclic(Blockers(tasks), Blockers(tasks'));
  }

  lemma {:induction false} OnlyRemoves(tasks: Table, tree: set<int>)
    ensures Remove(Unblock(tasks, tree), tree).Keys <= tasks.Keys
  {
  }

  lemma {:induction false} StepKeepsInvariant(tasks: Table, op: Op)
    requires Invariant(tasks)
    ensures Invariant(Do(tasks, op))
  {
    hide Reach, Acyclic, Invariant, Tree, OpenBelow, Unblock, Close, Remove, Finishes;
    if Accepted(tasks, op) {
      match op
      case Block(id, blocker) => BlockKeeps(tasks, id, blocker);
      case Complete(id) =>
        CloseKeeps(tasks, id);
        var done := Unblock(Close(tasks, id), {id});
        if Finishes(done, id) { CloseGoalKeeps(done, id); }
      case Scratch(id) => if tasks[id].status != Scratched { ScratchKeeps(tasks, id); }
      case Unscratch(id) => UnscratchKeeps(tasks, id);
      case Delete(id) => DeleteKeeps(tasks, Tree(tasks, id));
    }
  }

  lemma {:induction false} CloseGoalKeeps(tasks: Table, id: int)
    requires Invariant(tasks) && Finishes(tasks, id)
    ensures var goal := tasks[id].parent.value; Invariant(Unblock(Close(tasks, goal), {goal}))
  {
    hide Invariant, Unblock, Close;
    CloseKeeps(tasks, tasks[id].parent.value);
  }

  lemma {:induction false} ScratchKeeps(tasks: Table, id: int)
    requires Invariant(tasks) && id in tasks
    ensures Invariant(Unblock(tasks[id := tasks[id].(status := Scratched, blocker := None)], {id}))
  {
    hide Invariant;
    var tasks' := Unblock(tasks[id := tasks[id].(status := Scratched, blocker := None)], {id});
    assert tasks'[id].status == Scratched;
    UnblockKeeps(tasks, tasks', id);
  }

  lemma {:induction false} RunKeepsInvariant(tasks: Table, ops: seq<Op>)
    requires Invariant(tasks)
    ensures Invariant(DoAll(tasks, ops))
    decreases |ops|
  {
    hide Invariant, Do;
    if ops != [] {
      StepKeepsInvariant(tasks, ops[0]);
      RunKeepsInvariant(Do(tasks, ops[0]), ops[1..]);
    }
  }

  /** Whatever is blocked, completed, scratched, restored and deleted: a task is blocked
      exactly when it has a blocker, every blocker is an existing active task, and
      following blockers never leads back to where one started. */
  lemma {:induction false} EveryRunKeepsGraph(tasks: Table, ops: seq<Op>)
    requires Invariant(tasks)
    ensures var after := DoAll(tasks, ops);
            && (forall t :: t in after ==> (after[t].status == Blocked <==> after[t].blocker.Some?))
            && (forall t :: t in after && after[t].blocker.Some? ==>
                  after[t].blocker.value in after && Active(after[after[t].blocker.value]))
            && (forall p :: Walk(Blockers(after), p) && |p| > 1 ==> p[0] != p[|p| - 1])
  {
    hide Acyclic, Do, Walk;
    RunKeepsInvariant(tasks, ops);
    var after := DoAll(tasks, ops);
    forall t | t in after ensures TaskOk(after, t) {}
    forall p | Walk(Blockers(after), p) && |p| > 1 ensures p[0] != p[|p| - 1] { NoClosedWalk(Blockers(after), p); }
  }

  /** A completed task is done, whoever it alone held up can go on, and besides its own
      month goal no other task is touched. */
  lemma {:induction false} CompleteFreesDependents(tasks: Table, id: int)
    requires Invariant(tasks) && id in tasks && Accepted(tasks, Complete(id))
    ensures var after := Do(tasks, Complete(id));
            && after.Keys == tasks.Keys && after[id].status == Done
            && (forall t :: t in tasks && t != id && tasks[t].blocker == Some(id) ==>
                after[t] == Task(Todo, None, tasks[t].parent, tasks[t].monthGoal) || Some(t) == tasks[id].parent)
            && (forall t :: t in tasks && t != id && Some(t) != tasks[id].parent
                            && tasks[t].blocker != Some(id)
                                && (tasks[t].blocker == None || tasks[t].blocker != tasks[id].parent) ==>
                  after[t] == tasks[t])
  {
    hide Reach, Acyclic, OpenBelow;
    var done := Unblock(Close(tasks, id), {id});
    forall t | t in tasks ensures t in done && done[t] == Unblocked(Close(tasks, id)[t], {id}) {
      assert TaskOk(tasks, t);
    }
    assert done[id].status == Done && done[id].parent == tasks[id].parent;
    if Finishes(done, id) {
      var goal := done[id].parent.value;
      var after := Unblock(Close(done, goal), {goal});
      forall t | t in tasks ensures after[t] == Unblocked(Close(done, goal)[t], {goal}) {}
    }
  }

  /** The cycle check refuses nothing else: a link it turns down would have closed a chain. */
  lemma {:induction false} RefusedLinkWouldClose(tasks: Table, id: int, blocker: int)
    requires Reach(Blockers(tasks), blocker, id) && id != blocker
    ensures !Acyclic(Blockers(tasks)[id := blocker])
  {
    hide Acyclic;
    var next := Blockers(tasks)[id := blocker];
    var p :| Walks(Blockers(tasks), p, blocker, id);
    StopsAtFirst(Blockers(tasks), p, id);
    var q :| Walks(Blockers(tasks), q, blocker, id) && id !in q[..|q| - 1];
    forall i | 0 <= i < |q| - 1 ensures q[i] in next && next[q[i]] == q[i + 1] { assert q[i] in q[..|q| - 1]; }
    var closed := [id] + q;
    assert forall i :: 0 < i < |closed| ==> closed[i] == q[i - 1];
    assert Walk(next, closed);
    if Acyclic(next) { NoClosedWalk(next, closed); }
  }

  lemma {:induction false} StopsAtFirst(next: map<int, int>, p: seq<int>, id: int)
    requires Walk(next, p) && p[|p| - 1] == id
    ensures exists q :: Walks(next, q, p[0], id) && id !in q[..|q| - 1]
    decreases |p|
  {
    var front := p[..|p| - 1];
    if id in front {
      var i :| 0 <= i < |front| && front[i] == id;
      StopsAtFirst(next, p[..i + 1], id);
    } else {
      assert Walks(next, p, p[0], id);
    }
  }

  /** The task is the last open session of an open month goal. */
  predicate LastSession(tasks: Table, id: int, goal: int) {
    && id in tasks && tasks[id].parent == Some(goal) && id != goal
    && goal in tasks && tasks[goal].monthGoal && Active(tasks[goal])
    && forall t :: t in tasks && t != id && tasks[t].parent == Some(goal) ==> !Active(tasks[t])
  }

  /** Open work below a goal besides the task at hand. */
  ghost predicate OpenElsewhere(tasks: Table, id: int, goal: int) {
    exists t :: t in tasks && t != id && t != goal && Active(tasks[t]) && IsBelow(tasks, t, goal)
  }

  /** Closing and unblocking move no parents and, besides the closed task, open or close nothing. */
  lemma {:induction false} CloseOpensNothing(tasks: Table, id: int)
    requires id in tasks
    ensures var done := Unblock(Close(tasks, id), {id});
            && done.Keys == tasks.Keys && Parents(done) == Parents(tasks)
            && (forall t :: t in tasks ==> done[t].parent == tasks[t].parent && done[t].monthGoal == tasks[t].monthGoal)
            && (forall t :: t in tasks ==> (Active(done[t]) <==> t != id && Active(tasks[t])))
  {
    var done := Unblock(Close(tasks, id), {id});
    assert forall t :: t in tasks ==> done[t] == Unblocked(Close(tasks, id)[t], {id});
  }

  lemma {:induction false} FinishesIff(tasks: Table, id: int)
    requires id in tasks
    ensures Finishes(Unblock(Close(tasks, id), {id}), id)
            <==> tasks[id].parent.Some? && LastSession(tasks, id, tasks[id].parent.value)
  {
    hide Unblock, Close, Active, Parents;
    CloseOpensNothing(tasks, id);
  }

  /** Completing a task finishes a month goal over work that is still open exactly when
      the task is the goal's last open session and open work is left below a session
      that was scratched: completing the goal itself would then have been refused. */
  lemma {:induction false} GoalFinishesOverOpenWorkIff(tasks: Table, id: int, goal: int)
    requires id in tasks && Accepted(tasks, Complete(id)) && goal in tasks && goal != id
    ensures var after := Do(tasks, Complete(id));
            (Active(tasks[goal]) && after[goal].status == Done && OpenBelow(after, goal) != {})
            <==> LastSession(tasks, id, goal) && OpenElsewhere(tasks, id, goal)
    ensures LastSession(tasks, id, goal) && OpenElsewhere(tasks, id, goal) ==> !Accepted(tasks, Complete(goal))
  {
    hide Unblock, Close, Active, Parents, Reach;
    var done := Unblock(Close(tasks, id), {id});
    CloseOpensNothing(tasks, id);
    FinishesIff(tasks, id);
    OnlyClosedIsDone(tasks, id, goal);
    if Finishes(done, id) {
      CloseOpensNothing(done, done[id].parent.value);
      OnlyClosedIsDone(done, done[id].parent.value, goal);
    }
    var after := Do(tasks, Complete(id));
    assert Parents(after) == Parents(tasks);
    if LastSession(tasks, id, goal) {
      assert forall t :: t in tasks ==> (Active(after[t]) <==> t != id && t != goal && Active(tasks[t]));
      forall t ensures t in OpenBelow(after, goal)
          <==> t in tasks && t != id && t != goal && Active(tasks[t]) && IsBelow(tasks, t, goal) {}
      if OpenElsewhere(tasks, id, goal) {
        var t :| t in tasks && t != id && t != goal && Active(tasks[t]) && IsBelow(tasks, t, goal);
        assert t in OpenBelow(after, goal) && t in OpenBelow(tasks, goal);
      }
    }
  }

  lemma {:induction false} OnlyClosedIsDone(tasks: Table, id: int, t: int)
    requires id in tasks && t in tasks
    ensures var done := Unblock(Close(tasks, id), {id});
            && t in done && done[id].status == Done
            && (Active(tasks[t]) && t != id ==> done[t].status != Done)
  {
  }

  /** For instance over a session whose parent session was scratched. */
  lemma {:induction false} GoalFinishesOverOpenWork()
    ensures var tasks := map[1 := Task(Todo, None, None, true), 2 := Task(Scratched, None, Some(1), false),
                             3 := Task(Todo, None, Some(2), false), 4 := Task(Todo, None, Some(1), false)];
            && Accepted(tasks, Complete(4)) && !Accepted(tasks, Complete(1))
            && Do(tasks, Complete(4))[1].status == Done && Do(tasks, Complete(4))[3].status == Todo
  {
    var tasks := map[1 := Task(Todo, None, None, true), 2 := Task(Scratched, None, Some(1), false),
                     3 := Task(Todo, None, Some(2), false), 4 := Task(Todo, None, Some(1), false)];
    var up := Parents(tasks);
    assert up == map[2 := 1, 3 := 2, 4 := 1];
    ReachSelf(up, 1);
    ReachStep(up, 2, 1);
    assert IsBelow(tasks, 3, 1);
    assert 3 in OpenBelow(tasks, 1);
    forall t ensures !IsBelow(tasks, t, 4) {
      if IsBelow(tasks, t, 4) {
        ReachCases(up, tasks[t].parent.value, 4);
        if tasks[t].parent.value == 2 { ReachCases(up, 1, 4); }
      }
    }
    assert OpenBelow(tasks, 4) == {};
    var done := Unblock(Close(tasks, 4), {4});
    assert done == tasks[4 := Task(Done, None, Some(1), false)];
    assert Finishes(done, 4);
  }

  // ----- what one call leaves in the table -----

  /** A block is accepted exactly when both tasks exist, the blocker is neither done nor
      scratched, and the graph with the new link has no closed chain. */
  lemma {:induction false} BlockAcceptedIff(tasks: Table, id: int, blocker: int)
    requires Invariant(tasks)
    ensures Accepted(tasks, Block(id, blocker))
            <==> && id != 0 && blocker != 0 && id in tasks && blocker in tasks
                 && tasks[blocker].status != Done && tasks[blocker].status != Scratched
                 && Acyclic(Blockers(tasks)[id := blocker])
  {
    hide Reach, Acyclic;
    var next := Blockers(tasks)[id := blocker];
    if id == blocker {
      assert Walk(next, [id, id]);
      if Acyclic(next) { NoClosedWalk(next, [id, id]); }
    } else if Reach(Blockers(tasks), blocker, id) {
      RefusedLinkWouldClose(tasks, id, blocker);
    } else {
      LinkKeepsAcyclic(Blockers(tasks), id, blocker);
    }
  }

  /** An accepted block: the task is blocked by just this blocker and is otherwise as it
      was, no other task moves, and the blocker cannot be blocked by the task in turn. */
  lemma {:induction false} BlockLinks(tasks: Table, id: int, blocker: int)
    ensures var after := Do(tasks, Block(id, blocker));
            if Accepted(tasks, Block(id, blocker)) then
              && after.Keys == tasks.Keys
              && after[id] == Task(Blocked, Some(blocker), tasks[id].parent, tasks[id].monthGoal)
              && (forall t :: t in tasks && t != id ==> after[t] == tasks[t])
              && !Accepted(after, Block(blocker, id))
            else after == tasks
  {
    hide Reach;
    if Accepted(tasks, Block(id, blocker)) {
      var after := Do(tasks, Block(id, blocker));
      ReachSelf(Blockers(after), blocker);
      assert id in Blockers(after) && Blockers(after)[id] == blocker;
      ReachStep(Blockers(after), id, blocker);
    }
  }

  /** A scratched task is scratched and waits for nobody, whoever waited for it is to be
      done again, and no other task moves. */
  lemma {:induction false} ScratchFreesDependents(tasks: Table, id: int)
    requires Invariant(tasks) && id != 0 && id in tasks
    ensures var after := Do(tasks, Scratch(id));
            && after.Keys == tasks.Keys
            && after[id] == Task(Scratched, None, tasks[id].parent, tasks[id].monthGoal)
            && forall t :: t in tasks && t != id ==>
                 after[t] == if tasks[t].blocker == Some(id) then Task(Todo, None, tasks[t].parent, tasks[t].monthGoal)
                             else tasks[t]
  {
    hide Acyclic;
    assert forall t :: t in tasks ==> TaskOk(tasks, t);
    assert Accepted(tasks, Scratch(id));
    var mid := tasks[id := tasks[id].(status := Scratched, blocker := None)];
    assert forall t :: t in tasks ==> Unblock(mid, {id})[t] == Unblocked(mid[t], {id});
  }

  /** A restored task is to be done, waits for nobody, and no other task moves. */
  lemma {:induction false} UnscratchRestores(tasks: Table, id: int)
    requires Invariant(tasks) && id != 0 && id in tasks
    ensures Do(tasks, Unscratch(id)) == tasks[id := Task(Todo, None, tasks[id].parent, tasks[id].monthGoal)]
  {
    hide Acyclic;
    assert TaskOk(tasks, id) && Accepted(tasks, Unscratch(id));
  }

  /** A delete takes the task and whoever leads up to it; who waited for one of them is to
      be done again, and no other task moves. */
  lemma {:induction false} DeleteTakesTree(tasks: Table, id: int)
    requires Invariant(tasks) && id != 0
    ensures var after := Do(tasks, Delete(id));
            && (forall t :: t in after <==> t in tasks && !(id in tasks && Reach(Parents(tasks), t, id)))
            && forall t :: t in after ==>
                 after[t] == if tasks[t].blocker.Some? && tasks[t].blocker.value !in after
                             then Task(Todo, None, tasks[t].parent, tasks[t].monthGoal) else tasks[t]
  {
    hide Acyclic, Reach, Remove, Unblock, Parents;
    var tree := Tree(tasks, id);
    var after := Do(tasks, Delete(id));
    assert Accepted(tasks, Delete(id)) && after == Remove(Unblock(tasks, tree), tree);
    OnlyRemoves(tasks, tree);
    forall t | t in tasks ensures TaskOk(tasks, t) && (t in after <==> t !in tree) { LeftAfterDelete(tasks, tree, t); }
    forall t | t in after
      ensures after[t] == if tasks[t].blocker.Some? && tasks[t].blocker.value !in after
          then Task(Todo, None, tasks[t].parent, tasks[t].monthGoal) else tasks[t]
    {
      assert t in tasks && t !in tree && TaskOk(tasks, t);
      LeftAfterDelete(tasks, tree, t);
      assert after[t] == Unblocked(tasks[t], tree);
      if tasks[t].blocker.Some? {
        assert TaskOk(tasks, tasks[t].blocker.value);
        LeftAfterDelete(tasks, tree, tasks[t].blocker.value);
      }
    }
  }

  /** A completion is refused exactly when there is no such task to name or a task below
      it is neither done nor scratched. */
  lemma {:induction false} CompleteRefusedIff(tasks: Table, id: int)
    ensures !Accepted(tasks, Complete(id))
            <==> id == 0 || exists t :: t in tasks && IsBelow(tasks, t, id)
                                        && tasks[t].status != Done && tasks[t].status != Scratched
  {
    hide Reach;
    if OpenBelow(tasks, id) != {} {
      var t :| t in OpenBelow(tasks, id);
      assert t in tasks && IsBelow(tasks, t, id);
    }
    if t :| t in tasks && IsBelow(tasks, t, id) && tasks[t].status != Done && tasks[t].status != Scratched {
      assert t in OpenBelow(tasks, id);
    }
  }

  /** Completing a task makes a month goal done exactly when the task was its last open session. */
  lemma {:induction false} GoalFinishesIff(tasks: Table, id: int, goal: int)
    requires id in tasks && Accepted(tasks, Complete(id)) && goal in tasks && goal != id
    ensures goal in Do(tasks, Complete(id))
    ensures Do(tasks, Complete(id))[goal].status == Done <==> tasks[goal].status == Done || LastSession(tasks, id, goal)
  {
    hide Unblock, Close, Active, Parents, Reach, OpenBelow;
    var done := Unblock(Close(tasks, id), {id});
    FinishesIff(tasks, id);
    DoneStays(tasks, id, goal);
    if Finishes(done, id) { DoneStays(done, done[id].parent.value, goal); }
    CloseOpensNothing(tasks, id);
  }

  lemma {:induction false} DoneStays(tasks: Table, id: int, t: int)
    requires id in tasks && t in tasks
    ensures var done := Unblock(Close(tasks, id), {id});
            t in done && (done[t].status == Done <==> t == id || tasks[t].status == Done)
  {
  }
}
