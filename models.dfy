/** The tables behind the goal-tracking views: boards, their participants,
    goal categories, goals and goal comments, each a map from row id to
    record, and the two invariants the soft-delete cascades maintain. */
module Models {

  /** Primary keys of every table, and user ids. */
  type Id = nat

  /** `Goal.Status`; `Archived` is the goal's soft-delete state. */
  datatype Status = ToDo | InProgress | Done | Archived

  /** A participant's role on a board; read only by the permission classes. */
  datatype Role = Owner | Writer | Reader

  datatype Board = Board(title: string, isDeleted: bool)

  /** One `BoardParticipant` row: `user` takes part in `board` with `role`. */
  datatype Participant = Participant(board: Id, user: Id, role: Role)

  datatype Category = Category(title: string, board: Id, isDeleted: bool)

  /** `dueDate` is a day number; `priority` is the integer the ordering uses. */
  datatype Goal = Goal(title: string, description: string, user: Id, category: Id,
                       status: Status, priority: int, dueDate: int)

  /** `created` is a timestamp; larger means later. */
  datatype Comment = Comment(text: string, user: Id, goal: Id, created: int)

  /** The whole store at one instant. */
  datatype Db = Db(boards: map<Id, Board>,
                   participants: map<Id, Participant>,
                   categories: map<Id, Category>,
                   goals: map<Id, Goal>,
                   comments: map<Id, Comment>)

  /** Every foreign key points at an existing row. */
  predicate WellFormed(db: Db) {
    && (forall p :: p in db.participants ==> db.participants[p].board in db.boards)
    && (forall c :: c in db.categories ==> db.categories[c].board in db.boards)
    && (forall g :: g in db.goals ==> db.goals[g].category in db.categories)
    && (forall m :: m in db.comments ==> db.comments[m].goal in db.goals)
  }

  /** A deleted board has only deleted categories. */
  predicate DeletedBoardsHaveDeletedCategories(db: Db) {
    forall c ::
      (c in db.categories && db.categories[c].board in db.boards && db.boards[db.categories[c].board].isDeleted)
      ==> db.categories[c].isDeleted
  }

  /** A deleted category has only archived goals. */
  predicate DeletedCategoriesHaveArchivedGoals(db: Db) {
    forall g ::
      (g in db.goals && db.goals[g].category in db.categories && db.categories[db.goals[g].category].isDeleted)
      ==> db.goals[g].status == Archived
  }

  /** The store invariant the three destroys preserve. */
  predicate Consistent(db: Db) {
    WellFormed(db) && DeletedBoardsHaveDeletedCategories(db) && DeletedCategoriesHaveArchivedGoals(db)
  }
}
