/** The list endpoints: each returns its scope in the view's default
    `ordering`. Client-supplied ordering, search, filters and pagination are
    not part of this model. */
module Listing {
  import opened Models
  import opened Scopes
  import opened Ordering

  /** `ordering = ["title"]` of boards. */
  function BoardKey(b: Board): seq<int> {
    TitleKey(b.title)
  }

  /** `ordering = ["title"]` of categories. */
  function CategoryKey(c: Category): seq<int> {
    TitleKey(c.title)
  }

  /** `ordering = ["-priority", "due_date"]` as one ascending key. */
  function GoalKey(g: Goal): seq<int> {
    [-g.priority, g.dueDate]
  }

  /** `ordering = ["-created"]` as one ascending key. */
  function CommentKey(m: Comment): seq<int> {
    [-m.created]
  }

  /** The goal key orders by descending priority, then ascending due date. */
  lemma GoalKeyOrder(a: Goal, b: Goal)
    ensures LexLe(GoalKey(a), GoalKey(b)) <==>
      a.priority > b.priority || (a.priority == b.priority && a.dueDate <= b.dueDate)
  {
    assert GoalKey(a)[1..] == [a.dueDate] && GoalKey(b)[1..] == [b.dueDate];
    assert [a.dueDate][1..] == [] && [b.dueDate][1..] == [];
    assert LexLe([a.dueDate], [b.dueDate]) <==> a.dueDate <= b.dueDate;
  }

  /** The comment key puts later comments first. */
  lemma CommentKeyOrder(a: Comment, b: Comment)
    ensures LexLe(CommentKey(a), CommentKey(b)) <==> a.created >= b.created
  {
  }

  /** `BoardListView`: the board scope ordered by title. */
  ghost function BoardList(db: Db, user: Id): (r: seq<Id>)
    ensures forall b :: b in r <==> b in BoardScope(db, user)
    ensures |r| == |BoardScope(db, user)|
    ensures forall i :: 0 <= i < |r| ==> r[i] in db.boards
    ensures forall i, j :: 0 <= i < j < |r| ==>
      LexLe(TitleKey(db.boards[r[i]].title), TitleKey(db.boards[r[j]].title))
  {
    SortRows(db.boards, BoardScope(db, user), BoardKey)
  }

  /** `GoalCategoryListView`: the category scope ordered by title. */
  ghost function CategoryList(db: Db, user: Id): (r: seq<Id>)
    ensures forall c :: c in r <==> c in CategoryScope(db, user)
    ensures |r| == |CategoryScope(db, user)|
    ensures forall i :: 0 <= i < |r| ==> r[i] in db.categories
    ensures forall i, j :: 0 <= i < j < |r| ==>
      LexLe(TitleKey(db.categories[r[i]].title), TitleKey(db.categories[r[j]].title))
  {
    SortRows(db.categories, CategoryScope(db, user), CategoryKey)
  }

  /** A goal sequence sorted by `GoalKey` is in the goal list's order. */
  lemma GoalsInListOrder(db: Db, r: seq<Id>)
    requires forall i :: 0 <= i < |r| ==> r[i] in db.goals
    requires forall i, j :: 0 <= i < j < |r| ==> LexLe(GoalKey(db.goals[r[i]]), GoalKey(db.goals[r[j]]))
    ensures forall i, j :: 0 <= i < j < |r| ==>
      db.goals[r[i]].priority > db.goals[r[j]].priority ||
      (db.goals[r[i]].priority == db.goals[r[j]].priority && db.goals[r[i]].dueDate <= db.goals[r[j]].dueDate)
  {
    forall i, j | 0 <= i < j < |r|
      ensures db.goals[r[i]].priority > db.goals[r[j]].priority ||
        (db.goals[r[i]].priority == db.goals[r[j]].priority && db.goals[r[i]].dueDate <= db.goals[r[j]].dueDate)
    {
      GoalKeyOrder(db.goals[r[i]], db.goals[r[j]]);
    }
  }

  /** A comment sequence sorted by `CommentKey` is newest first. */
  lemma CommentsInListOrder(db: Db, r: seq<Id>)
    requires forall i :: 0 <= i < |r| ==> r[i] in db.comments
    requires forall i, j :: 0 <= i < j < |r| ==> LexLe(CommentKey(db.comments[r[i]]), CommentKey(db.comments[r[j]]))
    ensures forall i, j :: 0 <= i < j < |r| ==> db.comments[r[i]].created >= db.comments[r[j]].created
  {
  }

  /** `GoalListView`: the goal scope by descending priority, then ascending due date. */
  ghost function GoalList(db: Db, user: Id): (r: seq<Id>)
    ensures forall g :: g in r <==> g in GoalScope(db, user)
    ensures |r| == |GoalScope(db, user)|
    ensures forall i :: 0 <= i < |r| ==> r[i] in db.goals
    ensures forall i, j :: 0 <= i < j < |r| ==>
      db.goals[r[i]].priority > db.goals[r[j]].priority ||
      (db.goals[r[i]].priority == db.goals[r[j]].priority && db.goals[r[i]].dueDate <= db.goals[r[j]].dueDate)
  {
    var r := SortRows(db.goals, GoalScope(db, user), GoalKey);
    GoalsInListOrder(db, r);
    r
  }

  /** `CommentListView`: the comment scope, newest first. */
  ghost function CommentList(db: Db, user: Id): (r: seq<Id>)
    ensures forall m :: m in r <==> m in CommentScope(db, user)
    ensures |r| == |CommentScope(db, user)|
    ensures forall i :: 0 <= i < |r| ==> r[i] in db.comments
    ensures forall i, j :: 0 <= i < j < |r| ==> db.comments[r[i]].created >= db.comments[r[j]].created
  {
    var r := SortRows(db.comments, CommentScope(db, user), CommentKey);
    CommentsInListOrder(db, r);
    r
  }
}
