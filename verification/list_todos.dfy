/**
 * `ListTodosAction::handle`: the acting user's todos, filtered, sorted and
 * cut into one page. The store is only read.
 */
module ListTodos {
  import opened Wrappers
  import opened Enums
  import opened Models
  import opened Pagination
  import Text

  /**
   * The query string keys the action reads; None is a key that is missing
   * or null (`isset` and `??` treat both alike).
   */
  datatype ListQuery = ListQuery(
    isCompleted: Option<bool>,
    priority: Option<int>,
    sortBy: Option<Column>,
    sortDirection: Option<string>,
    perPage: Option<Positive>,
    page: Option<int>)

  /** The page size when no `per_page` is given. */
  const DefaultPerPage: Positive := 10

  /** The `InvalidArgumentException` `orderBy` throws for a direction other than asc or desc. */
  datatype ListError = InvalidOrderDirection

  /** A row the query keeps: owned by the user and equal to every filter that is set. */
  predicate Matches(t: Todo, user: User, q: ListQuery) {
    && t.userId == user.id
    && (q.isCompleted.Some? ==> t.isCompleted == q.isCompleted.value)
    && (q.priority.Some? ==> Value(t.priority) == q.priority.value)
  }

  /** `$user->todos()` followed by the `where` calls the set filters add, in the source's order. */
  function Matching(rows: seq<Todo>, user: User, q: ListQuery): (r: seq<Todo>)
    ensures forall t :: multiset(r)[t] == if Matches(t, user, q) then multiset(rows)[t] else 0
    ensures forall t :: t in r <==> t in rows && Matches(t, user, q)
  {
    var owned := Where(rows, (t: Todo) => t.userId == user.id);
    var byCompletion :=
      if q.isCompleted.Some? then Where(owned, (t: Todo) => t.isCompleted == q.isCompleted.value) else owned;
    if q.priority.Some? then Where(byCompletion, (t: Todo) => Value(t.priority) == q.priority.value)
    else byCompletion
  }

  /**
   * The direction `orderBy` is given, `sort_direction ?? 'desc'`: Some(true)
   * for descending, Some(false) for ascending (letter case ignored), None
   * when `orderBy` would throw.
   */
  function Descending(direction: Option<string>): (r: Option<bool>)
    ensures direction.None? ==> r == Some(true)
    ensures direction == Some("asc") ==> r == Some(false)
    ensures direction == Some("desc") ==> r == Some(true)
    ensures r.None? <==> Text.ToLower(direction.GetOr("desc")) != "asc" && Text.ToLower(direction.GetOr("desc")) != "desc"
    ensures r.Some? ==> (r.value <==> Text.ToLower(direction.GetOr("desc")) == "desc")
  {
    var d := Text.ToLower(direction.GetOr("desc"));
    assert direction.None? || direction == Some("desc") ==> d == "desc";
    assert direction == Some("asc") ==> d == "asc";
    if d == "asc" then Some(false) else if d == "desc" then Some(true) else None
  }

  /**
   * The paginator the action returns: the matching rows ordered by
   * `sort_by ?? 'created_at'`, the `page`-th slice of `per_page ?? 10`.
   */
  function ListTodos(rows: seq<Todo>, user: User, q: ListQuery): (r: Result<Page<Todo>, ListError>)
    ensures r.Err? <==> Descending(q.sortDirection).None?
    ensures r.Ok? ==> r.value.perPage == q.perPage.GetOr(DefaultPerPage)
    ensures r.Ok? ==> r.value.currentPage == ResolvePage(q.page)
    ensures r.Ok? ==> r.value.total == |Matching(rows, user, q)|
    ensures r.Ok? ==> |r.value.items| <= r.value.perPage
    ensures r.Ok? ==> forall t :: t in r.value.items ==> t in rows && Matches(t, user, q)
    ensures r.Ok? ==> Ordered(r.value.items, q.sortBy.GetOr(CreatedAt), Descending(q.sortDirection).value)
    ensures r.Ok? ==>
              exists sorted ::
                && multiset(sorted) == multiset(Matching(rows, user, q))
                && Ordered(sorted, q.sortBy.GetOr(CreatedAt), Descending(q.sortDirection).value)
                && r.value == Paginate(sorted, q.perPage.GetOr(DefaultPerPage), ResolvePage(q.page))
  {
    match Descending(q.sortDirection)
    case None => Err(InvalidOrderDirection)
    case Some(desc) =>
      var matching := Matching(rows, user, q);
      var sorted := OrderBy(matching, q.sortBy.GetOr(CreatedAt), desc);
      var p := Paginate(sorted, q.perPage.GetOr(DefaultPerPage), ResolvePage(q.page));
      PageRowsMatch(rows, user, q, sorted, p.items);
      Ok(p)
  }

  /** Rows taken from an arrangement of the matching rows are matching rows. */
  lemma PageRowsMatch(rows: seq<Todo>, user: User, q: ListQuery, sorted: seq<Todo>, items: seq<Todo>)
    requires multiset(sorted) == multiset(Matching(rows, user, q))
    requires forall t :: t in items ==> t in sorted
    ensures forall t :: t in items ==> t in rows && Matches(t, user, q)
  {
    forall t | t in items ensures t in rows && Matches(t, user, q) {
      assert t in multiset(sorted);
      assert t in Matching(rows, user, q);
    }
  }

  /** Another user's row never appears on any page. */
  lemma OthersNeverListed(rows: seq<Todo>, user: User, q: ListQuery, t: Todo)
    requires t.userId != user.id
    requires ListTodos(rows, user, q).Ok?
    ensures t !in ListTodos(rows, user, q).value.items
  {
  }

  /** With no sort and no page size given, a page holds at most 10 rows, newest first. */
  lemma DefaultListing(rows: seq<Todo>, user: User, q: ListQuery)
    requires q.sortBy.None? && q.sortDirection.None? && q.perPage.None?
    ensures ListTodos(rows, user, q).Ok?
    ensures |ListTodos(rows, user, q).value.items| <= 10
    ensures NewestFirst(ListTodos(rows, user, q).value.items)
  {
    var r := ListTodos(rows, user, q);
    assert r.Ok? && r.value.perPage == 10;
    OrderedByCreation(r.value.items);
  }

  /**
   * Without sort or page, the page holds the newest matching rows: every
   * matching row left off it was created no later than any row on it, and
   * the page is full unless fewer than 10 rows match.
   */
  lemma FirstPageIsNewest(rows: seq<Todo>, user: User, q: ListQuery, t: Todo)
    requires q.sortBy.None? && q.sortDirection.None? && q.perPage.None? && q.page.None?
    ensures ListTodos(rows, user, q).Ok?
    ensures var items, n := ListTodos(rows, user, q).value.items, |Matching(rows, user, q)|;
            |items| == if n < 10 then n else 10
    ensures var items := ListTodos(rows, user, q).value.items;
            t in Matching(rows, user, q) && t !in items ==>
              forall i :: 0 <= i < |items| ==> items[i].createdAt >= t.createdAt
  {
    var m := Matching(rows, user, q);
    var r := ListTodos(rows, user, q);
    var sorted :| && multiset(sorted) == multiset(m)
                  && Ordered(sorted, CreatedAt, true)
                  && r.value == Paginate(sorted, 10, 1);
    assert |sorted| == |m| by {
      assert |multiset(sorted)| == |multiset(m)|;
    }
    assert t in m <==> t in sorted by {
      assert t in m <==> t in multiset(m);
      assert t in sorted <==> t in multiset(sorted);
    }
    NewestPrefix(sorted, t);
  }

  /** The first page of 10 of a newest-first sequence: its first rows, none older than a row left off. */
  lemma NewestPrefix(sorted: seq<Todo>, t: Todo)
    requires Ordered(sorted, CreatedAt, true)
    ensures var items := Paginate(sorted, 10, 1).items;
            && |items| == (if |sorted| < 10 then |sorted| else 10)
            && (t in sorted && t !in items ==> forall i :: 0 <= i < |items| ==> items[i].createdAt >= t.createdAt)
  {
    var items := Paginate(sorted, 10, 1).items;
    assert Offset(10, 1) == 0;
    if t in sorted && t !in items {
      var j :| 0 <= j < |sorted| && sorted[j] == t;
      forall i | 0 <= i < |items| ensures items[i].createdAt >= t.createdAt {
        assert items[i] == sorted[i];
        assert Precedes(sorted[i], sorted[j], CreatedAt, true);
      }
    }
  }

  /** No row is followed by a more recently created one. */
  predicate NewestFirst(items: seq<Todo>) {
    forall i, j :: 0 <= i < j < |items| ==> items[i].createdAt >= items[j].createdAt
  }

  lemma OrderedByCreation(items: seq<Todo>)
    requires Ordered(items, CreatedAt, true)
    ensures NewestFirst(items)
  {
  }
}
