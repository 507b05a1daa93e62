/** The store the views work on, as an object whose tables are updated in
    place, and the destroy endpoints of the three views that override
    `perform_destroy`. Each method body is one atomic step, as
    `transaction.atomic()` makes it. */
module Views {
  import opened Models
  import opened Scopes
  import opened Cascades

  /** What a destroy request answers: 204, 404 or 403. */
  datatype Response = NoContent | NotFound | Forbidden

  class Store {
    var boards: map<Id, Board>
    var participants: map<Id, Participant>
    var categories: map<Id, Category>
    var goals: map<Id, Goal>
    var comments: map<Id, Comment>

    /** The tables as one value. */
    function Snapshot(): Db
      reads this
    {
      Db(boards, participants, categories, goals, comments)
    }

    constructor (db: Db)
      ensures Snapshot() == db
    {
      boards, participants, categories, goals, comments :=
        db.boards, db.participants, db.categories, db.goals, db.comments;
    }

    /** `BoardView.perform_destroy`: save the board with its flag set, then
        the two bulk updates; returns the saved board. */
    method DestroyBoard(b: Id) returns (instance: Board)
      requires b in boards
      modifies this
      ensures Snapshot() == BoardDestroyed(old(Snapshot()), b)
      ensures instance == boards[b] && instance.isDeleted
      ensures Consistent(old(Snapshot())) ==> Consistent(Snapshot())
    {
      ghost var before := Snapshot();
      if Consistent(before) { BoardDestroyPreservesConsistency(before, b); }
      var cs := CategoriesOf(Snapshot(), b);
      instance := boards[b].(isDeleted := true);
      boards := boards[b := instance];
      categories := SoftDeleteCategories(categories, cs);
      goals := ArchiveGoalsIn(goals, cs);
    }

    /** `GoalCategoryView.perform_destroy`: save the category's flag, then
        archive its goals; returns the saved category. */
    method DestroyCategory(c: Id) returns (instance: Category)
      requires c in categories
      modifies this
      ensures Snapshot() == CategoryDestroyed(old(Snapshot()), c)
      ensures instance == categories[c] && instance.isDeleted
      ensures Consistent(old(Snapshot())) ==> Consistent(Snapshot())
    {
      ghost var before := Snapshot();
      if Consistent(before) { CategoryDestroyPreservesConsistency(before, c); }
      instance := categories[c].(isDeleted := true);
      categories := categories[c := instance];
      goals := ArchiveGoalsIn(goals, {c});
    }

    /** `GoalView.perform_destroy`: save the goal's new status; returns the goal. */
    method DestroyGoal(g: Id) returns (instance: Goal)
      requires g in goals
      modifies this
      ensures Snapshot() == GoalDestroyed(old(Snapshot()), g)
      ensures instance == goals[g] && instance.status == Archived
      ensures Consistent(old(Snapshot())) ==> Consistent(Snapshot())
    {
      ghost var before := Snapshot();
      if Consistent(before) { GoalDestroyPreservesConsistency(before, g); }
      instance := goals[g].(status := Archived);
      goals := goals[g := instance];
    }

    /** DELETE on `BoardView`, once the view-level permission check has
        passed: the board is looked up in the view's scope (404 when it is
        not there), the permission class's object-level verdict `allowed` is
        applied (403), and only then is the board destroyed. */
    method DeleteBoard(user: Id, b: Id, allowed: bool) returns (resp: Response)
      modifies this
      ensures b !in BoardScope(old(Snapshot()), user) ==> resp == NotFound && Snapshot() == old(Snapshot())
      ensures b in BoardScope(old(Snapshot()), user) && !allowed ==>
        resp == Forbidden && Snapshot() == old(Snapshot())
      ensures b in BoardScope(old(Snapshot()), user) && allowed ==>
        resp == NoContent && Snapshot() == BoardDestroyed(old(Snapshot()), b)
    {
      if b !in BoardScope(Snapshot(), user) {
        resp := NotFound;
      } else if !allowed {
        resp := Forbidden;
      } else {
        var _ := DestroyBoard(b);
        resp := NoContent;
      }
    }

    /** DELETE on `GoalCategoryView`, scoped and checked as for boards. */
    method DeleteCategory(user: Id, c: Id, allowed: bool) returns (resp: Response)
      modifies this
      ensures c !in CategoryScope(old(Snapshot()), user) ==> resp == NotFound && Snapshot() == old(Snapshot())
      ensures c in CategoryScope(old(Snapshot()), user) && !allowed ==>
        resp == Forbidden && Snapshot() == old(Snapshot())
      ensures c in CategoryScope(old(Snapshot()), user) && allowed ==>
        resp == NoContent && Snapshot() == CategoryDestroyed(old(Snapshot()), c)
    {
      if c !in CategoryScope(Snapshot(), user) {
        resp := NotFound;
      } else if !allowed {
        resp := Forbidden;
      } else {
        var _ := DestroyCategory(c);
        resp := NoContent;
      }
    }

    /** DELETE on `GoalView`, scoped and checked as for boards. */
    method DeleteGoal(user: Id, g: Id, allowed: bool) returns (resp: Response)
      modifies this
      ensures g !in GoalScope(old(Snapshot()), user) ==> resp == NotFound && Snapshot() == old(Snapshot())
      ensures g in GoalScope(old(Snapshot()), user) && !allowed ==>
        resp == Forbidden && Snapshot() == old(Snapshot())
      ensures g in GoalScope(old(Snapshot()), user) && allowed ==>
        resp == NoContent && Snapshot() == GoalDestroyed(old(Snapshot()), g)
    {
      if g !in GoalScope(Snapshot(), user) {
        resp := NotFound;
      } else if !allowed {
        resp := Forbidden;
      } else {
        var _ := DestroyGoal(g);
        resp := NoContent;
      }
    }
  }

  /** A second DELETE of the same goal finds nothing and changes nothing,
      whoever sends it. */
  method DeleteGoalTwice(s: Store, user: Id, other: Id, g: Id) returns (first: Response, second: Response)
    requires g in GoalScope(s.Snapshot(), user)
    modifies s
    ensures first == NoContent && second == NotFound
    ensures s.Snapshot() == GoalDestroyed(old(s.Snapshot()), g)
  {
    first := s.DeleteGoal(user, g, true);
    GoalDestroyScopes(old(s.Snapshot()), g, other);
    second := s.DeleteGoal(other, g, true);
  }

  /** A second DELETE of the same board finds nothing; the store stays as
      after the first. */
  method DeleteBoardTwice(s: Store, user: Id, b: Id) returns (first: Response, second: Response)
    requires b in BoardScope(s.Snapshot(), user)
    modifies s
    ensures first == NoContent && second == NotFound
    ensures s.Snapshot() == BoardDestroyed(old(s.Snapshot()), b)
  {
    first := s.DeleteBoard(user, b, true);
    BoardDestroyScopes(old(s.Snapshot()), b, user);
    second := s.DeleteBoard(user, b, true);
  }
}
