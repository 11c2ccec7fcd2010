/** `TodoPolicy` (backend/app/Policies/TodoPolicy.php): who may do what to a todo. */
module Policies {
  import opened Models

  /** Any user may list todos. */
  function ViewAny(user: User): (ok: bool)
    ensures ok
  {
    true
  }

  /** Any user may create a todo. */
  function Create(user: User): (ok: bool)
    ensures ok
  {
    true
  }

  /** Only the owner may view a todo. */
  function View(user: User, todo: Todo): (ok: bool)
    ensures ok <==> user == User(todo.userId)
  {
    user.id == todo.userId
  }

  /** Only the owner may update a todo. */
  function Update(user: User, todo: Todo): (ok: bool)
    ensures ok <==> View(user, todo)
  {
    user.id == todo.userId
  }

  /** Only the owner may delete a todo. */
  function Delete(user: User, todo: Todo): (ok: bool)
    ensures ok <==> View(user, todo)
  {
    user.id == todo.userId
  }

  /** The list and create abilities are granted to everyone. */
  lemma OpenAbilities(user: User)
    ensures ViewAny(user) && Create(user)
  {
  }

  /** The three per-record abilities coincide, and each is ownership. */
  lemma PerRecordAbilitiesAgree(user: User, todo: Todo)
    ensures View(user, todo) <==> user.id == todo.userId
    ensures Update(user, todo) <==> View(user, todo)
    ensures Delete(user, todo) <==> View(user, todo)
  {
  }

  /** Every todo is open to exactly one user: its owner. */
  lemma SoleOwner(u: User, v: User, todo: Todo)
    requires Update(u, todo) && Update(v, todo)
    ensures u == v
  {
  }
}
