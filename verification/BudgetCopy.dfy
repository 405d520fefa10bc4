/** Making a new budget out of the tree of another: joined rows gathered into a tree again, renumbered, its goals restarted. */
module BudgetCopy {
  import opened Common
  import opened Ledger
  import opened TargetWindow
  import CategoryTargets

  datatype Look = Look(name: string, icon: Option<string>, color: Option<string>, defaultAccount: Option<Id>)

  datatype CategoryNode = CategoryNode(id: Id, look: Look, goals: seq<Target>)

  datatype GroupNode = GroupNode(id: Id, name: string, categories: seq<CategoryNode>)

  datatype Cell = Cell(id: Id, look: Look)

  /** A row of the joined statement: a side the left join found nothing for is missing whole. */
  datatype TreeRow = TreeRow(group: Id, groupName: string, category: Option<Cell>, goal: Option<Target>)

  // ---- the join ----

  function GoalRows(g: GroupNode, c: CategoryNode, goals: seq<Target>): seq<TreeRow> {
    if goals == [] then []
    else
      var row := TreeRow(g.id, g.name, Some(Cell(c.id, c.look)), Some(goals[|goals| - 1]));
      GoalRows(g, c, goals[..|goals| - 1]) + [row]
  }

  function CategoryRows(g: GroupNode, c: CategoryNode): seq<TreeRow> {
    if c.goals == [] then [TreeRow(g.id, g.name, Some(Cell(c.id, c.look)), None)] else GoalRows(g, c, c.goals)
  }

  function CategoriesRows(g: GroupNode, cs: seq<CategoryNode>): seq<TreeRow> {
    if cs == [] then [] else CategoriesRows(g, cs[..|cs| - 1]) + CategoryRows(g, cs[|cs| - 1])
  }

  function GroupRows(g: GroupNode): seq<TreeRow> {
    if g.categories == [] then [TreeRow(g.id, g.name, None, None)] else CategoriesRows(g, g.categories)
  }

  /** What the statement answers for a tree: every group, its categories behind it, every category's goals behind that. */
  function Joined(tree: seq<GroupNode>): seq<TreeRow> {
    if tree == [] then [] else Joined(tree[..|tree| - 1]) + GroupRows(tree[|tree| - 1])
  }

  // ---- gathering ----

  function GroupIds(groups: seq<GroupNode>): (ids: seq<Id>)
    ensures |ids| == |groups| && forall i | 0 <= i < |groups| :: ids[i] == groups[i].id
  {
    seq(|groups|, i requires 0 <= i < |groups| => groups[i].id)
  }

  function CategoryIds(cs: seq<CategoryNode>): (ids: seq<Id>)
    ensures |ids| == |cs| && forall i | 0 <= i < |cs| :: ids[i] == cs[i].id
  {
    seq(|cs|, i requires 0 <= i < |cs| => cs[i].id)
  }

  /** Where an id stands, or behind the last when it is not there. */
  function Position(ids: seq<Id>, id: Id): (k: nat)
    ensures k <= |ids| && (k < |ids| ==> ids[k] == id)
  {
    if ids == [] || ids[0] == id then 0 else 1 + Position(ids[1..], id)
  }

  function WithGoal(c: CategoryNode, goal: Option<Target>): CategoryNode {
    if goal.None? then c else c.(goals := c.goals + [goal.value])
  }

  function WithCategory(cs: seq<CategoryNode>, cell: Cell, goal: Option<Target>): seq<CategoryNode> {
    var k := Position(CategoryIds(cs), cell.id);
    if k < |cs| then cs[k := WithGoal(cs[k], goal)] else cs + [WithGoal(CategoryNode(cell.id, cell.look, []), goal)]
  }

  function WithCell(g: GroupNode, row: TreeRow): GroupNode {
    if row.category.None? then g else g.(categories := WithCategory(g.categories, row.category.value, row.goal))
  }

  function WithRow(groups: seq<GroupNode>, row: TreeRow): seq<GroupNode> {
    var k := Position(GroupIds(groups), row.group);
    if k < |groups| then groups[k := WithCell(groups[k], row)]
    else groups + [WithCell(GroupNode(row.group, row.groupName, []), row)]
  }

  function Gathered(groups: seq<GroupNode>, rows: seq<TreeRow>): seq<GroupNode> {
    if rows == [] then groups else WithRow(Gathered(groups, rows[..|rows| - 1]), rows[|rows| - 1])
  }

  method Gather(rows: seq<TreeRow>) returns (groups: seq<GroupNode>)
    ensures groups == Gathered([], rows)
  {
    groups := [];
    for i := 0 to |rows|
      invariant groups == Gathered([], rows[..i])
    {
      var row := rows[i];
      assert rows[..i + 1][..i] == rows[..i];
      var at := Position(GroupIds(groups), row.group);
      var group := if at < |groups| then groups[at] else GroupNode(row.group, row.groupName, []);
      if row.category.Some? {
        var cell := row.category.value;
        var k := Position(CategoryIds(group.categories), cell.id);
        var category := if k < |group.categories| then group.categories[k] else CategoryNode(cell.id, cell.look, []);
        if row.goal.Some? {
          category := category.(goals := category.goals + [row.goal.value]);
        }
        group := group.(categories :=
          if k < |group.categories| then group.categories[k := category] else group.categories + [category]);
      }
      groups := if at < |groups| then groups[at := group] else groups + [group];
    }
    assert rows[..|rows|] == rows;
  }

  // ---- the tree comes back ----

  predicate OwnIds(cs: seq<CategoryNode>) {
    forall i, j | 0 <= i < j < |cs| :: cs[i].id != cs[j].id
  }

  ghost predicate IsTree(tree: seq<GroupNode>) {
    && (forall i, j | 0 <= i < j < |tree| :: tree[i].id != tree[j].id)
    && (forall i | 0 <= i < |tree| :: OwnIds(tree[i].categories))
  }

  lemma {:induction false} NewIsBehind(ids: seq<Id>, id: Id)
    requires forall i | 0 <= i < |ids| :: ids[i] != id
    ensures Position(ids, id) == |ids| && Position(ids + [id], id) == |ids|
  {
    if ids != [] {
      NewIsBehind(ids[1..], id);
      assert (ids + [id])[1..] == ids[1..] + [id];
    }
  }

  lemma NewGroup(groups: seq<GroupNode>, g: GroupNode)
    requires forall i | 0 <= i < |groups| :: groups[i].id != g.id
    ensures Position(GroupIds(groups), g.id) == |groups| && Position(GroupIds(groups + [g]), g.id) == |groups|
  {
    NewIsBehind(GroupIds(groups), g.id);
    assert GroupIds(groups + [g]) == GroupIds(groups) + [g.id];
  }

  lemma NewCategory(cs: seq<CategoryNode>, c: CategoryNode)
    requires forall i | 0 <= i < |cs| :: cs[i].id != c.id
    ensures Position(CategoryIds(cs), c.id) == |cs| && Position(CategoryIds(cs + [c]), c.id) == |cs|
  {
    NewIsBehind(CategoryIds(cs), c.id);
    assert CategoryIds(cs + [c]) == CategoryIds(cs) + [c.id];
  }

  lemma {:induction false} GatheredInTurn(groups: seq<GroupNode>, a: seq<TreeRow>, b: seq<TreeRow>)
    ensures Gathered(groups, a + b) == Gathered(Gathered(groups, a), b)
  {
    if b == [] {
      assert a + b == a;
    } else {
      GatheredInTurn(groups, a, b[..|b| - 1]);
      assert (a + b)[..|a + b| - 1] == a + b[..|b| - 1];
    }
  }

  /** The state the rows of a category are met in: its group holds the categories before it, or is not there yet. */
  predicate Before(state: seq<GroupNode>, done: seq<GroupNode>, g: GroupNode, cs: seq<CategoryNode>) {
    state == done + [g.(categories := cs)] || (cs == [] && state == done)
  }

  lemma FirstInGroup(cs: seq<CategoryNode>, c: CategoryNode, goal: Option<Target>)
    requires forall i | 0 <= i < |cs| :: cs[i].id != c.id
    ensures WithCategory(cs, Cell(c.id, c.look), goal) == cs + [WithGoal(c.(goals := []), goal)]
  {
    NewCategory(cs, c);
  }

  /** A row for a category the last group does not hold yet, or a group there is not yet. */
  lemma FirstOfCategory(state: seq<GroupNode>, done: seq<GroupNode>, g: GroupNode, cs: seq<CategoryNode>, c: CategoryNode,
                        goal: Option<Target>)
    requires Before(state, done, g, cs)
    requires (forall i | 0 <= i < |done| :: done[i].id != g.id) && forall i | 0 <= i < |cs| :: cs[i].id != c.id
    ensures WithRow(state, TreeRow(g.id, g.name, Some(Cell(c.id, c.look)), goal))
         == done + [g.(categories := cs + [WithGoal(c.(goals := []), goal)])]
  {
    FirstInGroup(cs, c, goal);
    if state == done + [g.(categories := cs)] {
      NewGroup(done, g.(categories := cs));
    } else {
      NewGroup(done, g);
      assert g.(categories := cs) == GroupNode(g.id, g.name, []);
    }
  }

  lemma {:induction false} OneRow(groups: seq<GroupNode>, row: TreeRow)
    ensures Gathered(groups, [row]) == WithRow(groups, row)
  {
    assert [row][..0] == [];
  }

  lemma NextOfCategory(done: seq<GroupNode>, g: GroupNode, cs: seq<CategoryNode>, c: CategoryNode, goal: Target)
    requires (forall i | 0 <= i < |done| :: done[i].id != g.id) && forall i | 0 <= i < |cs| :: cs[i].id != c.id
    ensures WithRow(done + [g.(categories := cs + [c])], TreeRow(g.id, g.name, Some(Cell(c.id, c.look)), Some(goal)))
         == done + [g.(categories := cs + [c.(goals := c.goals + [goal])])]
  {
    var row := TreeRow(g.id, g.name, Some(Cell(c.id, c.look)), Some(goal));
    NewGroup(done, g.(categories := cs + [c]));
    NewCategory(cs, c);
    assert WithCategory(cs + [c], row.category.value, Some(goal)) == cs + [c.(goals := c.goals + [goal])];
    assert WithCell(g.(categories := cs + [c]), row) == g.(categories := cs + [c.(goals := c.goals + [goal])]);
  }

  lemma {:induction false} GathersGoals(state: seq<GroupNode>, done: seq<GroupNode>, g: GroupNode, cs: seq<CategoryNode>,
                                        c: CategoryNode, goals: seq<Target>)
    requires Before(state, done, g, cs) && goals != []
    requires (forall i | 0 <= i < |done| :: done[i].id != g.id) && forall i | 0 <= i < |cs| :: cs[i].id != c.id
    ensures Gathered(state, GoalRows(g, c, goals)) == done + [g.(categories := cs + [c.(goals := goals)])]
  {
    var front, last := goals[..|goals| - 1], goals[|goals| - 1];
    var row := TreeRow(g.id, g.name, Some(Cell(c.id, c.look)), Some(last));
    assert GoalRows(g, c, goals)[..|GoalRows(g, c, goals)| - 1] == GoalRows(g, c, front);
    if front == [] {
      FirstOfCategory(state, done, g, cs, c, Some(last));
      assert GoalRows(g, c, front) == [];
      assert [] + [last] == goals;
    } else {
      GathersGoals(state, done, g, cs, c, front);
      NextOfCategory(done, g, cs, c.(goals := front), last);
      assert front + [last] == goals;
    }
  }

  lemma {:induction false} GathersCategory(state: seq<GroupNode>, done: seq<GroupNode>, g: GroupNode, cs: seq<CategoryNode>, c: CategoryNode)
    requires Before(state, done, g, cs)
    requires (forall i | 0 <= i < |done| :: done[i].id != g.id) && forall i | 0 <= i < |cs| :: cs[i].id != c.id
    ensures Gathered(state, CategoryRows(g, c)) == done + [g.(categories := cs + [c])]
  {
    if c.goals == [] {
      FirstOfCategory(state, done, g, cs, c, None);
      OneRow(state, TreeRow(g.id, g.name, Some(Cell(c.id, c.look)), None));
    } else {
      GathersGoals(state, done, g, cs, c, c.goals);
    }
  }

  lemma {:induction false} GathersCategories(done: seq<GroupNode>, g: GroupNode, cs: seq<CategoryNode>)
    requires cs != [] && OwnIds(cs) && forall i | 0 <= i < |done| :: done[i].id != g.id
    ensures Gathered(done, CategoriesRows(g, cs)) == done + [g.(categories := cs)]
  {
    var front, last := cs[..|cs| - 1], cs[|cs| - 1];
    if front == [] {
      assert CategoriesRows(g, front) == [] && Gathered(done, []) == done;
    } else {
      GathersCategories(done, g, front);
    }
    GathersOneCategory(done, g, front, last);
    Whole(cs);
  }

  lemma Whole(cs: seq<CategoryNode>)
    requires cs != []
    ensures cs[..|cs| - 1] + [cs[|cs| - 1]] == cs
  {
  }

  lemma {:induction false} GathersOneCategory(done: seq<GroupNode>, g: GroupNode, cs: seq<CategoryNode>, c: CategoryNode)
    requires Before(Gathered(done, CategoriesRows(g, cs)), done, g, cs)
    requires (forall i | 0 <= i < |done| :: done[i].id != g.id) && forall i | 0 <= i < |cs| :: cs[i].id != c.id
    ensures Gathered(done, CategoriesRows(g, cs + [c])) == done + [g.(categories := cs + [c])]
  {
    assert (cs + [c])[..|cs|] == cs;
    GatheredInTurn(done, CategoriesRows(g, cs), CategoryRows(g, c));
    GathersCategory(Gathered(done, CategoriesRows(g, cs)), done, g, cs, c);
  }

  lemma {:induction false} GathersGroup(done: seq<GroupNode>, g: GroupNode)
    requires OwnIds(g.categories) && forall i | 0 <= i < |done| :: done[i].id != g.id
    ensures Gathered(done, GroupRows(g)) == done + [g]
  {
    if g.categories == [] {
      NewGroup(done, g);
      OneRow(done, TreeRow(g.id, g.name, None, None));
    } else {
      GathersCategories(done, g, g.categories);
    }
  }

  /** Gathering the joined rows gives the tree back in its order, groups without categories and categories without goals included. */
  lemma {:induction false} GatheringUndoesTheJoin(tree: seq<GroupNode>)
    requires IsTree(tree)
    ensures Gathered([], Joined(tree)) == tree
  {
    if tree == [] {
      assert Gathered([], []) == [];
    } else {
      var front, last := tree[..|tree| - 1], tree[|tree| - 1];
      assert IsTree(front) && OwnIds(last.categories);
      GatheringUndoesTheJoin(front);
      GathersOneMore(front, last);
      assert tree == front + [last];
    }
  }

  lemma {:induction false} GathersOneMore(tree: seq<GroupNode>, g: GroupNode)
    requires Gathered([], Joined(tree)) == tree
    requires OwnIds(g.categories) && forall i | 0 <= i < |tree| :: tree[i].id != g.id
    ensures Gathered([], Joined(tree + [g])) == tree + [g]
  {
    JoinedOneMore(tree, g);
    GatheredInTurn([], Joined(tree), GroupRows(g));
    GathersGroup(tree, g);
  }

  lemma {:induction false} JoinedOneMore(tree: seq<GroupNode>, g: GroupNode)
    ensures Joined(tree + [g]) == Joined(tree) + GroupRows(g)
  {
    assert (tree + [g])[..|tree|] == tree;
  }

  // ---- the copy ----

  datatype CopiedGoal = CopiedGoal(kind: Kind, amount: int, startMonth: Month, dueMonth: Option<Month>)

  datatype CopiedCategory = CopiedCategory(look: Look, sortOrder: nat, goal: Option<CopiedGoal>)

  datatype CopiedGroup = CopiedGroup(name: string, sortOrder: nat, categories: seq<CopiedCategory>)

  function StartingOver(goals: seq<Target>, month: Month, withGoals: bool): Option<CopiedGoal> {
    var live := if withGoals then LiveTarget(goals, month) else None;
    if live.None? then None
    else Some(CopiedGoal(live.value.kind, live.value.amount, month, live.value.dueMonth))
  }

  function CopiedCategories(cs: seq<CategoryNode>, month: Month, withGoals: bool): seq<CopiedCategory> {
    seq(|cs|, i requires 0 <= i < |cs| => CopiedCategory(cs[i].look, i, StartingOver(cs[i].goals, month, withGoals)))
  }

  function CopiedTree(rows: seq<TreeRow>, month: Month, withGoals: bool): seq<CopiedGroup> {
    var groups := Gathered([], rows);
    seq(|groups|, i requires 0 <= i < |groups| =>
      CopiedGroup(groups[i].name, i, CopiedCategories(groups[i].categories, month, withGoals)))
  }

  /** A goal in the copy is the live one of the template and no other, and none is made where there was none live. */
  predicate Restarts(goals: seq<Target>, month: Month, goal: Option<CopiedGoal>) {
    if goal.None? then forall t | t in goals :: !IsLive(t, month)
    else exists t | t in goals ::
      && IsLive(t, month) && (forall u | u in goals && IsLive(u, month) :: u.startMonth <= t.startMonth)
      && goal.value == CopiedGoal(t.kind, t.amount, month, t.dueMonth)
  }

  lemma StartingOverRestarts(goals: seq<Target>, month: Month)
    ensures Restarts(goals, month, StartingOver(goals, month, true))
  {
    LiveIsPick(goals, month);
  }

  /** The copy has the template's groups and categories in their places, numbered without a gap, each with its live goal. */
  lemma {:induction false} CopyIsTheTemplate(tree: seq<GroupNode>, month: Month, withGoals: bool, i: nat, j: nat)
    requires IsTree(tree)
    ensures var copy := CopiedTree(Joined(tree), month, withGoals);
            && |copy| == |tree|
            && (i < |tree| ==>
                  && copy[i].name == tree[i].name && copy[i].sortOrder == i && |copy[i].categories| == |tree[i].categories|
                  && (j < |tree[i].categories| ==>
                        var c, t := copy[i].categories[j], tree[i].categories[j];
                        && c.look == t.look && c.sortOrder == j
                        && (if withGoals then Restarts(t.goals, month, c.goal) else c.goal == None)))
  {
    GatheringUndoesTheJoin(tree);
    if i < |tree| && j < |tree[i].categories| {
      StartingOverRestarts(tree[i].categories[j].goals, month);
    }
  }

  /** The goals of a copied category begin as a history of their own, shown from the month the copy was made in. */
  lemma {:induction false} CopiedGoalStartsAHistory(goals: seq<Target>, month: Month, id: Id)
    requires CategoryTargets.History(goals, month) && StartingOver(goals, month, true).Some?
    ensures var goal := StartingOver(goals, month, true).value;
            var row := Target(id, goal.kind, goal.amount, goal.startMonth, goal.dueMonth, None);
            CategoryTargets.History([row], month) && ActiveInMonth([row], month) == Some(row)
  {
    var i := CategoryTargets.LiveAt(goals, month);
    assert CategoryTargets.WellDated(goals[i], month);
    var goal := StartingOver(goals, month, true).value;
    var row := Target(id, goal.kind, goal.amount, goal.startMonth, goal.dueMonth, None);
    assert [row][..0] == [];
  }
}
