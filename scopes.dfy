/** The `get_queryset` filters of the views. Each is written as the join the
    ORM lookup path spells out (`category__board__participants__user` walks
    goal -> category -> board -> participant), and its contract says which
    rows that join keeps. The list view and the detail view of a resource
    share one filter. */
module Scopes {
  import opened Models

  /** `user` has a participant row on the existing board `board`. */
  predicate Participates(db: Db, user: Id, board: Id) {
    board in db.boards &&
    exists p :: p in db.participants && db.participants[p].board == board && db.participants[p].user == user
  }

  /** Goal `g` lies in a category of board `b`. */
  predicate GoalOnBoard(db: Db, g: Id, b: Id) {
    g in db.goals && db.goals[g].category in db.categories && db.categories[db.goals[g].category].board == b
  }

  /** `Board.objects.filter(participants__user=user, is_deleted=False)`. */
  function BoardScope(db: Db, user: Id): (r: set<Id>)
    ensures forall b :: b in r <==>
      b in db.boards && !db.boards[b].isDeleted && Participates(db, user, b)
  {
    set b, p | b in db.boards && p in db.participants &&
               db.participants[p].board == b && db.participants[p].user == user &&
               !db.boards[b].isDeleted :: b
  }

  /** `GoalCategory.objects.filter(board__participants__user=user, is_deleted=False)`. */
  function CategoryScope(db: Db, user: Id): (r: set<Id>)
    ensures forall c :: c in r <==>
      c in db.categories && !db.categories[c].isDeleted && Participates(db, user, db.categories[c].board)
  {
    set c, p | c in db.categories && db.categories[c].board in db.boards && p in db.participants &&
               db.participants[p].board == db.categories[c].board && db.participants[p].user == user &&
               !db.categories[c].isDeleted :: c
  }

  /** `Goal.objects.filter(Q(category__board__participants__user_id=user) & ~Q(status=archived))`.
      Neither the category's nor the board's deletion flag is consulted. */
  function GoalScope(db: Db, user: Id): (r: set<Id>)
    ensures forall g :: g in r <==>
      g in db.goals && db.goals[g].status != Archived && db.goals[g].category in db.categories &&
      Participates(db, user, db.categories[db.goals[g].category].board)
  {
    set g, p | g in db.goals && db.goals[g].category in db.categories &&
               db.categories[db.goals[g].category].board in db.boards && p in db.participants &&
               db.participants[p].board == db.categories[db.goals[g].category].board &&
               db.participants[p].user == user && db.goals[g].status != Archived :: g
  }

  /** `GoalComment.objects.filter(goal__category__board__participants__user=user)`:
      no deletion or archival filter at any level. */
  function CommentScope(db: Db, user: Id): (r: set<Id>)
    ensures forall m :: m in r <==>
      m in db.comments && db.comments[m].goal in db.goals &&
      db.goals[db.comments[m].goal].category in db.categories &&
      Participates(db, user, db.categories[db.goals[db.comments[m].goal].category].board)
  {
    set m, p | m in db.comments && db.comments[m].goal in db.goals &&
               db.goals[db.comments[m].goal].category in db.categories &&
               db.categories[db.goals[db.comments[m].goal].category].board in db.boards &&
               p in db.participants &&
               db.participants[p].board == db.categories[db.goals[db.comments[m].goal].category].board &&
               db.participants[p].user == user :: m
  }

  /** Although the goal filter ignores the parents' flags, in a consistent
      store a visible goal has a live category on a live board. */
  lemma VisibleGoalHasLiveParents(db: Db, user: Id, g: Id)
    requires Consistent(db)
    requires g in GoalScope(db, user)
    ensures db.goals[g].category in db.categories
    ensures !db.categories[db.goals[g].category].isDeleted
    ensures !db.boards[db.categories[db.goals[g].category].board].isDeleted
  {
  }

  /** A comment stays visible whatever the state of its goal, category and
      board: archiving the goal or deleting its parents does not hide it. */
  lemma CommentVisibleOnArchivedGoal(db: Db, user: Id, m: Id)
    requires m in db.comments && db.comments[m].goal in db.goals
    requires db.goals[db.comments[m].goal].status == Archived
    requires db.goals[db.comments[m].goal].category in db.categories
    requires Participates(db, user, db.categories[db.goals[db.comments[m].goal].category].board)
    ensures m in CommentScope(db, user)
    ensures db.comments[m].goal !in GoalScope(db, user)
  {
  }
}
