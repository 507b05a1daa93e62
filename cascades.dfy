/** The three `perform_destroy` overrides as functions from the store before
    to the store after (each runs as one atomic step), with what they
    archive, what they leave alone, and how they change the scopes. */
module Cascades {
  import opened Models
  import opened Scopes

  /** `board.categories`: the categories whose board is `b`. */
  function CategoriesOf(db: Db, b: Id): set<Id> {
    set c | c in db.categories && db.categories[c].board == b
  }

  /** The goals whose category is `c`. */
  function GoalsOf(db: Db, c: Id): set<Id> {
    set g | g in db.goals && db.goals[g].category == c
  }

  /** The goals in some category of board `b`. */
  function GoalsUnder(db: Db, b: Id): set<Id> {
    set g | g in db.goals && GoalOnBoard(db, g, b)
  }

  /** The bulk `update(is_deleted=True)` of the categories in `cs`. */
  function SoftDeleteCategories(categories: map<Id, Category>, cs: set<Id>): (r: map<Id, Category>)
    ensures r.Keys == categories.Keys
    ensures forall c :: c in categories ==> r[c].isDeleted == (c in cs || categories[c].isDeleted)
    ensures forall c :: c in categories ==> r[c].(isDeleted := categories[c].isDeleted) == categories[c]
  {
    map c | c in categories :: if c in cs then categories[c].(isDeleted := true) else categories[c]
  }

  /** The bulk `update(status=archived)` of the goals whose category is in `cs`. */
  function ArchiveGoalsIn(goals: map<Id, Goal>, cs: set<Id>): (r: map<Id, Goal>)
    ensures r.Keys == goals.Keys
    ensures forall g :: g in goals ==>
      r[g].status == (if goals[g].category in cs then Archived else goals[g].status)
    ensures forall g :: g in goals ==> r[g].(status := goals[g].status) == goals[g]
  {
    map g | g in goals :: if goals[g].category in cs then goals[g].(status := Archived) else goals[g]
  }

  /** `BoardView.perform_destroy`: flag the board, soft-delete its categories,
      archive every goal under it. */
  function BoardDestroyed(db: Db, b: Id): (r: Db)
    requires b in db.boards
    ensures r.boards.Keys == db.boards.Keys && r.boards[b].isDeleted
    ensures r.boards[b].title == db.boards[b].title
    ensures forall x :: x in db.boards && x != b ==> r.boards[x] == db.boards[x]
    ensures r.categories.Keys == db.categories.Keys
    ensures forall c :: c in db.categories && db.categories[c].board == b ==>
      r.categories[c] == db.categories[c].(isDeleted := true)
    ensures forall c :: c in db.categories && db.categories[c].board != b ==>
      r.categories[c] == db.categories[c]
    ensures r.goals.Keys == db.goals.Keys
    ensures forall g :: GoalOnBoard(db, g, b) ==> r.goals[g] == db.goals[g].(status := Archived)
    ensures forall g :: g in db.goals && !GoalOnBoard(db, g, b) ==> r.goals[g] == db.goals[g]
    ensures r.participants == db.participants && r.comments == db.comments
  {
    var cs := CategoriesOf(db, b);
    Db(db.boards[b := db.boards[b].(isDeleted := true)], db.participants,
       SoftDeleteCategories(db.categories, cs), ArchiveGoalsIn(db.goals, cs), db.comments)
  }

  /** `GoalCategoryView.perform_destroy`: flag the category, archive its goals. */
  function CategoryDestroyed(db: Db, c: Id): (r: Db)
    requires c in db.categories
    ensures r.categories.Keys == db.categories.Keys && r.categories[c].isDeleted
    ensures r.categories[c].(isDeleted := db.categories[c].isDeleted) == db.categories[c]
    ensures forall x :: x in db.categories && x != c ==> r.categories[x] == db.categories[x]
    ensures r.goals.Keys == db.goals.Keys
    ensures forall g :: g in db.goals && db.goals[g].category == c ==>
      r.goals[g] == db.goals[g].(status := Archived)
    ensures forall g :: g in db.goals && db.goals[g].category != c ==> r.goals[g] == db.goals[g]
    ensures r.boards == db.boards && r.participants == db.participants && r.comments == db.comments
  {
    db.(categories := db.categories[c := db.categories[c].(isDeleted := true)],
        goals := ArchiveGoalsIn(db.goals, {c}))
  }

  /** `GoalView.perform_destroy`: only the goal's status changes, to archived;
      the row stays in the table. */
  function GoalDestroyed(db: Db, g: Id): (r: Db)
    requires g in db.goals
    ensures r.goals.Keys == db.goals.Keys && r.goals[g].status == Archived
    ensures r.goals[g].(status := db.goals[g].status) == db.goals[g]
    ensures forall x :: x in db.goals && x != g ==> r.goals[x] == db.goals[x]
    ensures r.boards == db.boards && r.participants == db.participants
    ensures r.categories == db.categories && r.comments == db.comments
  {
    db.(goals := db.goals[g := db.goals[g].(status := Archived)])
  }

  // Idempotence: a second destroy of the same row changes nothing.

  lemma BoardDestroyIdempotent(db: Db, b: Id)
    requires b in db.boards
    ensures BoardDestroyed(BoardDestroyed(db, b), b) == BoardDestroyed(db, b)
  {
  }

  lemma CategoryDestroyIdempotent(db: Db, c: Id)
    requires c in db.categories
    ensures CategoryDestroyed(CategoryDestroyed(db, c), c) == CategoryDestroyed(db, c)
  {
  }

  lemma GoalDestroyIdempotent(db: Db, g: Id)
    requires g in db.goals
    ensures GoalDestroyed(GoalDestroyed(db, g), g) == GoalDestroyed(db, g)
  {
  }

  // The store invariant survives every destroy.

  lemma BoardDestroyPreservesConsistency(db: Db, b: Id)
    requires b in db.boards && Consistent(db)
    ensures Consistent(BoardDestroyed(db, b))
  {
  }

  lemma CategoryDestroyPreservesConsistency(db: Db, c: Id)
    requires c in db.categories && Consistent(db)
    ensures Consistent(CategoryDestroyed(db, c))
  {
  }

  lemma GoalDestroyPreservesConsistency(db: Db, g: Id)
    requires g in db.goals && Consistent(db)
    ensures Consistent(GoalDestroyed(db, g))
  {
  }

  // What each destroy does to what users see.

  /** None of the destroys touches participant rows or board ids. */
  lemma ParticipationUnchanged(db: Db, r: Db, user: Id)
    requires r.participants == db.participants && r.boards.Keys == db.boards.Keys
    ensures forall x :: Participates(r, user, x) <==> Participates(db, user, x)
  {
  }

  /** Destroying a board hides it, its categories and the goals under it from
      every user, and hides nothing else; comments stay visible. */
  lemma BoardDestroyScopes(db: Db, b: Id, user: Id)
    requires b in db.boards
    ensures BoardScope(BoardDestroyed(db, b), user) == BoardScope(db, user) - {b}
    ensures CategoryScope(BoardDestroyed(db, b), user) == CategoryScope(db, user) - CategoriesOf(db, b)
    ensures GoalScope(BoardDestroyed(db, b), user) == GoalScope(db, user) - GoalsUnder(db, b)
    ensures CommentScope(BoardDestroyed(db, b), user) == CommentScope(db, user)
  {
    var r := BoardDestroyed(db, b);
    ParticipationUnchanged(db, r, user);
    BoardScopeAfterBoardDestroy(db, r, b, user);
    CategoryScopeAfterBoardDestroy(db, r, b, user);
    GoalScopeAfterBoardDestroy(db, r, b, user);
    CommentScopeUnchanged(db, r, user);
  }

  lemma BoardScopeAfterBoardDestroy(db: Db, r: Db, b: Id, user: Id)
    requires b in db.boards && r == BoardDestroyed(db, b)
    requires forall x :: Participates(r, user, x) <==> Participates(db, user, x)
    ensures BoardScope(r, user) == BoardScope(db, user) - {b}
  {
  }

  lemma CategoryScopeAfterBoardDestroy(db: Db, r: Db, b: Id, user: Id)
    requires b in db.boards && r == BoardDestroyed(db, b)
    requires forall x :: Participates(r, user, x) <==> Participates(db, user, x)
    ensures CategoryScope(r, user) == CategoryScope(db, user) - CategoriesOf(db, b)
  {
  }

  lemma GoalScopeAfterBoardDestroy(db: Db, r: Db, b: Id, user: Id)
    requires b in db.boards && r == BoardDestroyed(db, b)
    requires forall x :: Participates(r, user, x) <==> Participates(db, user, x)
    ensures GoalScope(r, user) == GoalScope(db, user) - GoalsUnder(db, b)
  {
  }

  /** The comment filter reads only rows and references the destroys never change. */
  lemma CommentScopeUnchanged(db: Db, r: Db, user: Id)
    requires r.comments == db.comments && r.goals.Keys == db.goals.Keys
    requires r.categories.Keys == db.categories.Keys
    requires forall g :: g in db.goals ==> r.goals[g].category == db.goals[g].category
    requires forall c :: c in db.categories ==> r.categories[c].board == db.categories[c].board
    requires forall x :: Participates(r, user, x) <==> Participates(db, user, x)
    ensures CommentScope(r, user) == CommentScope(db, user)
  {
  }

  /** Destroying a category hides it and its goals, and nothing else. */
  lemma CategoryDestroyScopes(db: Db, c: Id, user: Id)
    requires c in db.categories
    ensures BoardScope(CategoryDestroyed(db, c), user) == BoardScope(db, user)
    ensures CategoryScope(CategoryDestroyed(db, c), user) == CategoryScope(db, user) - {c}
    ensures GoalScope(CategoryDestroyed(db, c), user) == GoalScope(db, user) - GoalsOf(db, c)
    ensures CommentScope(CategoryDestroyed(db, c), user) == CommentScope(db, user)
  {
    var r := CategoryDestroyed(db, c);
    ParticipationUnchanged(db, r, user);
    assert BoardScope(r, user) == BoardScope(db, user);
    forall x ensures x in CategoryScope(r, user) <==> x in CategoryScope(db, user) - {c} {
    }
    forall x ensures x in GoalScope(r, user) <==> x in GoalScope(db, user) - GoalsOf(db, c) {
    }
    CommentScopeUnchanged(db, r, user);
  }

  /** Destroying a goal hides exactly that goal; its comments stay visible. */
  lemma GoalDestroyScopes(db: Db, g: Id, user: Id)
    requires g in db.goals
    ensures BoardScope(GoalDestroyed(db, g), user) == BoardScope(db, user)
    ensures CategoryScope(GoalDestroyed(db, g), user) == CategoryScope(db, user)
    ensures GoalScope(GoalDestroyed(db, g), user) == GoalScope(db, user) - {g}
    ensures CommentScope(GoalDestroyed(db, g), user) == CommentScope(db, user)
  {
    var r := GoalDestroyed(db, g);
    assert r.boards == db.boards && r.categories == db.categories;
    forall x ensures x in GoalScope(r, user) <==> x in GoalScope(db, user) - {g} {
    }
    ParticipationUnchanged(db, r, user);
    CommentScopeUnchanged(db, r, user);
  }
}
