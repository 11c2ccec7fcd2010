/**
 * The feature tests' scenarios (backend/tests/Feature/TodoTest.php) run
 * against the routes on a fresh store: what each request answers and what
 * the store holds afterwards.
 */
module Scenarios {
  import opened Wrappers
  import opened Json
  import opened Enums
  import opened Models
  import opened Requests
  import opened TodoActions
  import opened Controllers
  import Text

  /** A todo for `user` with only a title and a priority given. */
  function TitleAndPriority(title: string, p: TaskPriority): CreateData {
    CreateData(title, None, None, None, None, Some(p), None)
  }

  /**
   * Creating a todo answers 201 and stores it under the creator with the
   * given title and priority; showing it afterwards returns the same row.
   */
  method CreateThenShow(user: User, title: string, now: int) returns (created: Reply, shown: Reply, stored: Todo)
    ensures Status(created) == 201 && Status(shown) == 200
    ensures stored.userId == user.id && stored.title == title && stored.priority == Medium
    ensures Data(created) == Some(ToJson(stored))
    ensures Data(shown) == Data(created)
  {
    var store := new TodoStore();
    created := Store(store, user, TitleAndPriority(title, Medium), now);
    stored := store.todos[1];
    shown := Show(store, user, 1);
  }

  /**
   * A user who tries to rename another user's todo is refused with 403
   * and the title stays as it was.
   */
  method UpdateOthersTodo(owner: User, intruder: User, readDate: DateReader, now: int)
    returns (reply: Reply, titleAfter: string)
    requires owner.id != intruder.id
    ensures Status(reply) == 403
    ensures titleAfter == "Another User Todo"
  {
    var store := new TodoStore();
    var _ := Store(store, owner, TitleAndPriority("Another User Todo", Low), now);
    reply := Update(store, intruder, 1, EmptyInput.(title := Given(RStr("Trying to update"))), readDate, now + 1);
    titleAfter := store.todos[1].title;
  }

  /** The owner's update of title, description, completion and priority is stored and returned. */
  method OwnerUpdates(owner: User, readDate: DateReader, now: int) returns (reply: Reply, after: Todo)
    ensures Status(reply) == 200
    ensures after.title == "Updated Title" && after.description == Some("Updated description")
    ensures after.isCompleted && after.priority == High
  {
    var store := new TodoStore();
    var _ := Store(store, owner, TitleAndPriority("Original Title", Low), now);
    assert !Text.IsBlank("Updated Title") by {
      assert !Text.IsTrimmed("Updated Title"[0]);
    }
    var body := UpdateInput(
      Given(RStr("Updated Title")), Given(RStr("Updated description")), Absent, Absent,
      Given(RBool(true)), Given(RInt(2)));
    reply := Update(store, owner, 1, body, readDate, now + 1);
    after := store.todos[1];
  }

  /**
   * Deleting another user's todo is refused and the row stays; the owner's
   * delete removes it, after which showing it answers 404.
   */
  method DeleteScenarios(owner: User, intruder: User, now: int)
    returns (refused: Reply, keptAfterRefusal: bool, deleted: Reply, shownAfter: Reply)
    requires owner.id != intruder.id
    ensures Status(refused) == 403 && keptAfterRefusal
    ensures Status(deleted) == 200 && shownAfter == NotFound
  {
    var store := new TodoStore();
    var _ := Store(store, owner, TitleAndPriority("Chore", Low), now);
    refused := Destroy(store, intruder, 1);
    keptAfterRefusal := 1 in store.todos;
    deleted := Destroy(store, owner, 1);
    shownAfter := Show(store, owner, 1);
  }
}
