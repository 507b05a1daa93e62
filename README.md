# Goal-tracker views: visibility scopes and soft-delete cascades

This project models the view layer of a goal-tracking backend. Users put goals into categories and categories into boards. A board has participants, and only participants see anything on it. The store holds five tables, each a map from row id to record: boards, board participants, goal categories, goals and goal comments (`models.dfy`).

Two kinds of rule are modelled:

* **Visibility scopes.** The `get_queryset` of every list and detail view is a filter over the tables (`scopes.dfy`). Each is written as the join that the ORM lookup path spells out. Its contract says exactly which rows the join keeps. The list endpoints return their scope in the view's default `ordering` (`listing.dfy`, built on one lexicographic order and one sort in `ordering.dfy`).
* **Soft-delete cascades.** Each of the three `perform_destroy` overrides is a pure function from the store before to the store after (`cascades.dfy`). The lemmas prove each one idempotent, prove that each keeps the store invariant, and state exactly what each hides from every user. In `views.dfy` a `Store` class holds the five tables as fields. Its destroy methods update those fields in place, one atomic step each, and are proved equal to the pure functions. The DELETE endpoints wrap them. The view-level permission check is taken to have passed. Then come the scoped lookup (404), the object-level permission verdict (403) and the destroy (204).

The store invariant (`Models.Consistent`) says three things:
* every foreign key points at an existing row;
* a deleted board has only deleted categories;
* a deleted category has only archived goals.

The goal views test neither the category's nor the board's deletion flag. They test only the goal's own status and the user's participation. `Scopes.VisibleGoalHasLiveParents` proves that on every store satisfying `Consistent` a visible goal still has a live category on a live board, and the three destroys keep that invariant.

## Model

| member | source | states |
|---|---|---|
| Scopes.BoardScope | goals/views.py:149-159 | a board is in the scope exactly when it exists, is not deleted and the user has a participant row on it |
| Scopes.CategoryScope | goals/views.py:36-51 | a category is in the scope exactly when it is not deleted and the user participates in its (existing) board |
| Scopes.GoalScope | goals/views.py:83-97 | a goal is in the scope exactly when its status is not archived and the user participates in its category's board; no archived goal is ever in it |
| Scopes.CommentScope | goals/views.py:121-131 | a comment is in the scope exactly when the user participates in the board of its goal's category; no deletion or archival flag matters |
| Scopes.VisibleGoalHasLiveParents | goals/views.py:83-97 | in a consistent store a visible goal's category and that category's board are both live, though the filter does not test them |
| Scopes.CommentVisibleOnArchivedGoal | goals/views.py:121-131 | a comment on an archived goal stays visible to a participant while the goal itself is hidden |
| Listing.BoardList | goals/views.py:146 | the board list holds each board of the scope exactly once, ordered by title |
| Listing.CategoryList | goals/views.py:32 | the category list holds each category of the scope exactly once, ordered by title |
| Listing.GoalList | goals/views.py:74 | the goal list holds each goal of the scope exactly once, by descending priority and, for equal priority, ascending due date |
| Listing.CommentList | goals/views.py:117 | the comment list holds each comment of the scope exactly once, newest first |
| Listing.GoalKeyOrder | goals/views.py:74 | comparing goal keys is the same as comparing by descending priority, then ascending due date |
| Listing.CommentKeyOrder | goals/views.py:117 | comparing comment keys is the same as comparing by descending creation time |
| Cascades.SoftDeleteCategories | goals/views.py:165 | the bulk update sets the flag on the selected categories, keeps every other flag and changes no other field and no key |
| Cascades.ArchiveGoalsIn | goals/views.py:166-168 | the bulk update archives exactly the goals of the selected categories, keeps every other status and changes no other field and no key |
| Cascades.BoardDestroyed | goals/views.py:161-169 | the board is flagged deleted and keeps its title; each category on it is flagged and otherwise unchanged; each goal under it is archived and otherwise unchanged; every other board, category and goal, and all participants and comments, are unchanged |
| Cascades.CategoryDestroyed | goals/views.py:53-58 | the category is flagged deleted and otherwise unchanged; its goals are archived and otherwise unchanged; other categories, goals in sibling categories, boards, participants and comments are unchanged |
| Cascades.GoalDestroyed | goals/views.py:99-102 | the goal is still in the table, its status is archived and its other fields are unchanged; every other row is unchanged |
| Cascades.BoardDestroyIdempotent | goals/views.py:161-169 | destroying a board twice gives the same store as destroying it once |
| Cascades.CategoryDestroyIdempotent | goals/views.py:53-58 | destroying a category twice gives the same store as destroying it once |
| Cascades.GoalDestroyIdempotent | goals/views.py:99-102 | destroying a goal twice gives the same store as destroying it once |
| Cascades.BoardDestroyPreservesConsistency | goals/views.py:161-169 | a board destroy keeps referential integrity and both cascade invariants |
| Cascades.CategoryDestroyPreservesConsistency | goals/views.py:53-58 | a category destroy keeps referential integrity and both cascade invariants |
| Cascades.GoalDestroyPreservesConsistency | goals/views.py:99-102 | a goal destroy keeps referential integrity and both cascade invariants |
| Cascades.BoardDestroyScopes | goals/views.py:161-169 | after a board destroy every user's board, category and goal scopes lose exactly that board, its categories and the goals under it; comment scopes are unchanged |
| Cascades.BoardScopeAfterBoardDestroy | goals/views.py:161-169 | after a board destroy the board scope is the old one without that board |
| Cascades.CategoryScopeAfterBoardDestroy | goals/views.py:161-169 | after a board destroy the category scope is the old one without the board's categories |
| Cascades.GoalScopeAfterBoardDestroy | goals/views.py:161-169 | after a board destroy the goal scope is the old one without the goals under the board, so no goal under a destroyed board is visible |
| Cascades.CommentScopeUnchanged | goals/views.py:121-131 | the comment scope depends only on comments, participants and the goal-to-category and category-to-board links, which no destroy changes |
| Cascades.CategoryDestroyScopes | goals/views.py:53-58 | after a category destroy the category scope loses exactly that category and the goal scope exactly its goals; board and comment scopes are unchanged |
| Cascades.GoalDestroyScopes | goals/views.py:99-102 | after a goal destroy the goal scope loses exactly that goal; board, category and comment scopes are unchanged |
| Views.Store.DestroyBoard | goals/views.py:161-169 | the tables become `BoardDestroyed` of the old tables in one step; the returned board is the saved, deleted one; the invariant is kept |
| Views.Store.DestroyCategory | goals/views.py:53-58 | the tables become `CategoryDestroyed` of the old tables in one step; the returned category is the saved, deleted one; the invariant is kept |
| Views.Store.DestroyGoal | goals/views.py:99-102 | the tables become `GoalDestroyed` of the old tables; the returned goal is the saved, archived one; the invariant is kept |
| Views.Store.DeleteBoard | goals/views.py:153-169 | a board outside the user's scope gives 404 and a refused object-level permission gives 403, both with no change; otherwise 204 and the board destroy |
| Views.Store.DeleteCategory | goals/views.py:42-58 | a category outside the user's scope gives 404 and a refused object-level permission gives 403, both with no change; otherwise 204 and the category destroy |
| Views.Store.DeleteGoal | goals/views.py:89-102 | a goal outside the user's scope gives 404 and a refused object-level permission gives 403, both with no change; otherwise 204 and the goal destroy |
| Views.DeleteGoalTwice | goals/views.py:94-102 | the first DELETE answers 204, a second DELETE of the same goal by any user answers 404, and the final store is that of one goal destroy |
| Views.DeleteBoardTwice | goals/views.py:158-169 | the first DELETE answers 204, the second answers 404, and the final store is that of one board destroy |

## Left out

- The permission classes (`BoardPermissions`, `GoalCategoryPermissions`, `GoalPermissions`, `CommentPermissions`): their module is not part of this model. Their object-level verdict (`has_object_permission`, which the framework consults after the scoped lookup) enters the DELETE methods as the parameter `allowed`. No role rule is modelled. The participant's role is stored but never read.
- Views.Store.DeleteBoard, Views.Store.DeleteCategory, Views.Store.DeleteGoal: the view-level permission check (`has_permission`, run by the framework before the lookup) is assumed to pass. A request it refuses answers 403 even for an id outside the scope, where these methods answer 404.
- `IsAuthenticated`, HTTP routing and authentication: the requesting user is a parameter.
- The Create views and every serializer, so creating rows and the update (PUT/PATCH) half of the detail views: the creation and update logic lives in serializers that are not part of this model.
- Deleting a comment: `CommentView` keeps the framework's physical delete, which is library behaviour, not code of this repository.
- Retrieve (GET) of a single row is not a separate member: it answers 404 exactly when the id is outside the view's scope, which the scope functions state.
- Search, filter backends (`GoalDateFilter`, `filterset_fields`), client-chosen `ordering` parameters and limit/offset pagination: library behaviour. Only the default `ordering` of each list view is modelled.
- Rows tied on the ordering key come back in an order the database chooses. The list functions promise only "sorted by the key", and their body breaks the ties arbitrarily.
- Titles are compared by character code. The database's collation rules are not modelled.
- Duplicate rows: a filter across the participants relation returns a row once per matching participant row. The scopes are sets, so each row appears once. The two agree when a user has at most one participant row per board. The models module is not part of this model, so that uniqueness constraint cannot be checked here.
- The field types of the models module: `priority` is an unbounded integer, and `due_date` and `created` are integers (a day number and a timestamp) that are never null. How nulls sort is therefore not modelled.
- Rollback and isolation of `transaction.atomic()`: each destroy is one atomic method, and no failure in the middle of a cascade is modelled.
- bot/tg/dc.py: passive message records; their lenient decoding of unknown fields belongs to the serialization library.
- tests/conftest.py: fixture registration, no logic.
