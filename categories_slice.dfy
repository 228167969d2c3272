/** The categories slice of the client store: the flat category list, the
    category tree, the category being viewed and the loading/error flags.
    Four async actions (fetch all, fetch tree, fetch by id, fetch by slug) move
    it through pending, fulfilled and rejected.

    `Reduce` is the reducer as a function; the class `CategoriesStore` holds the
    same state in fields and applies each case in place, each method proved to
    produce `Reduce` of the old state. */
module CategoriesSlice {
  import opened JsCore
  import opened CategoryTypes

  datatype Thunk = FetchCategories | FetchCategoryTree | FetchCategory | FetchCategoryBySlug

  datatype Action =
    | ClearCurrentCategory
    | ClearError
    | Pending(thunk: Thunk)
    | Rejected(thunk: Thunk, message: Option<string>)
    | FetchCategoriesFulfilled(categories: seq<Category>)
    | FetchCategoryTreeFulfilled(categoryTree: seq<Category>)
    | FetchCategoryFulfilled(category: Category)
    | FetchCategoryBySlugFulfilled(bySlug: Category)

  datatype State = State(
    items: seq<Category>,
    tree: seq<Category>,
    currentCategory: Option<Category>,
    isLoading: bool,
    error: Option<string>)

  /** The data part of the state: everything except the two flags. */
  predicate SameData(a: State, b: State) {
    a.items == b.items && a.tree == b.tree && a.currentCategory == b.currentCategory
  }

  /** The initial state: nothing loaded, not loading, no error. */
  function InitialState(): (s: State)
    ensures s.items == [] && s.tree == [] && s.currentCategory == None
    ensures !s.isLoading && s.error == None
  {
    State([], [], None, false, None)
  }

  /** The message stored when a thunk fails without a message of its own. */
  function Fallback(t: Thunk): string {
    match t
    case FetchCategories => "Failed to fetch categories"
    case FetchCategoryTree => "Failed to fetch category tree"
    case FetchCategory => "Failed to fetch category"
    case FetchCategoryBySlug => "Failed to fetch category by slug"
  }

  /** The slice reducer. Across all actions: only a pending case starts
      loading and every settled request stops it; an error appears only
      through a rejection, and only a pending case or `clearError` removes
      one. */
  function Reduce(s: State, a: Action): (r: State)
    ensures r.isLoading <==> a.Pending? || (s.isLoading && (a.ClearCurrentCategory? || a.ClearError?))
    ensures r.error.Some? <==> a.Rejected? || (s.error.Some? && !a.Pending? && !a.ClearError?)
  {
    match a
    case ClearCurrentCategory => s.(currentCategory := None)
    case ClearError => s.(error := None)
    case Pending(_) => s.(isLoading := true, error := None)
    case Rejected(t, m) => s.(isLoading := false, error := Some(OrElse(m, Fallback(t))))
    case FetchCategoriesFulfilled(cs) => s.(isLoading := false, items := cs)
    case FetchCategoryTreeFulfilled(tr) => s.(isLoading := false, tree := tr)
    case FetchCategoryFulfilled(c) => s.(isLoading := false, currentCategory := Some(c))
    case FetchCategoryBySlugFulfilled(c) => s.(isLoading := false, currentCategory := Some(c))
  }

  // ---------------------------------------------------------------------------
  // Properties of the reducer

  /** Every pending case raises the loading flag, clears the error and keeps
      all data. */
  lemma PendingKeepsData(s: State, t: Thunk)
    ensures var r := Reduce(s, Pending(t)); r.isLoading && r.error == None && SameData(r, s)
  {
  }

  /** Every rejected case lowers the loading flag, stores the message or the
      thunk's own fallback text (never an empty one) and keeps all data. */
  lemma RejectedKeepsData(s: State, t: Thunk, m: Option<string>)
    ensures var r := Reduce(s, Rejected(t, m));
      && !r.isLoading && SameData(r, s)
      && r.error == Some(if Truthy(m) then m.value else Fallback(t))
      && r.error.value != ""
  {
  }

  /** Fetching the list replaces only `items`; fetching the tree replaces only
      `tree`. */
  lemma FetchesReplaceOneList(s: State, cs: seq<Category>, tr: seq<Category>)
    ensures Reduce(s, FetchCategoriesFulfilled(cs)) == s.(isLoading := false, items := cs)
    ensures Reduce(s, FetchCategoryTreeFulfilled(tr)) == s.(isLoading := false, tree := tr)
  {
  }

  /** Fetching by id and by slug both overwrite the category being viewed, and
      have the same effect for the same payload. */
  lemma FetchOneOverwritesCurrent(s: State, c: Category)
    ensures Reduce(s, FetchCategoryFulfilled(c)).currentCategory == Some(c)
    ensures Reduce(s, FetchCategoryFulfilled(c)) == Reduce(s, FetchCategoryBySlugFulfilled(c))
    ensures Reduce(s, FetchCategoryFulfilled(c)).items == s.items
    ensures Reduce(s, FetchCategoryFulfilled(c)).tree == s.tree
  {
  }

  /** The two synchronous reducers each reset exactly one field. */
  lemma ClearsResetOneField(s: State)
    ensures Reduce(s, ClearCurrentCategory) == s.(currentCategory := None)
    ensures Reduce(s, ClearError) == s.(error := None)
  {
  }

  // ---------------------------------------------------------------------------
  // The store, updated in place

  class CategoriesStore {
    var items: seq<Category>
    var tree: seq<Category>
    var currentCategory: Option<Category>
    var isLoading: bool
    var error: Option<string>

    function View(): State
      reads this
    {
      State(items, tree, currentCategory, isLoading, error)
    }

    constructor ()
      ensures View() == InitialState()
    {
      items, tree, currentCategory := [], [], None;
      isLoading, error := false, None;
    }

    method ClearCurrentCategory()
      modifies this
      ensures View() == Reduce(old(View()), Action.ClearCurrentCategory)
    {
      currentCategory := None;
    }

    method ClearError()
      modifies this
      ensures View() == Reduce(old(View()), Action.ClearError)
    {
      error := None;
    }

    method Pending(t: Thunk)
      modifies this
      ensures View() == Reduce(old(View()), Action.Pending(t))
    {
      isLoading := true;
      error := None;
    }

    method Rejected(t: Thunk, message: Option<string>)
      modifies this
      ensures View() == Reduce(old(View()), Action.Rejected(t, message))
    {
      isLoading := false;
      error := Some(if Truthy(message) then message.value else Fallback(t));
    }

    method FetchCategoriesFulfilled(cs: seq<Category>)
      modifies this
      ensures View() == Reduce(old(View()), Action.FetchCategoriesFulfilled(cs))
    {
      isLoading := false;
      items := cs;
    }

    method FetchCategoryTreeFulfilled(tr: seq<Category>)
      modifies this
      ensures View() == Reduce(old(View()), Action.FetchCategoryTreeFulfilled(tr))
    {
      isLoading := false;
      tree := tr;
    }

    method FetchCategoryFulfilled(c: Category)
      modifies this
      ensures View() == Reduce(old(View()), Action.FetchCategoryFulfilled(c))
    {
      isLoading := false;
      currentCategory := Some(c);
    }

    method FetchCategoryBySlugFulfilled(c: Category)
      modifies this
      ensures View() == Reduce(old(View()), Action.FetchCategoryBySlugFulfilled(c))
    {
      isLoading := false;
      currentCategory := Some(c);
    }
  }
}
