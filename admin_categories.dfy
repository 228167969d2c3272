/** The admin category manager (`AdminCategories`): the slug generator, the
    category form's initial state and its name, slug and parent inputs, the
    parent choices offered, and the add, edit, toggle and delete flow with its
    modals. The `onAdd`, `onEdit`, `onDelete` and `onToggleActive` callbacks
    are recorded as requests. */
module AdminCategories {
  import opened JsCore
  import opened CategoryTypes

  // ---------------------------------------------------------------------------
  // generateSlug: toLowerCase, every character outside [a-z0-9а-я] becomes
  // '-', runs of '-' become one, and a leading and a trailing '-' are dropped.

  /** The characters `[a-z0-9а-я]` keeps. */
  predicate SlugChar(c: char) {
    'a' <= c <= 'z' || '0' <= c <= '9' || 'а' <= c <= 'я'
  }

  function MarkSeparators(s: string): (r: string)
    ensures |r| == |s|
    ensures forall i :: 0 <= i < |s| ==> r[i] == if SlugChar(s[i]) then s[i] else '-'
  {
    seq(|s|, i requires 0 <= i < |s| => if SlugChar(s[i]) then s[i] else '-')
  }

  function CollapseDashes(s: string): string
    decreases |s|
  {
    if |s| <= 1 then s
    else if s[0] == '-' && s[1] == '-' then CollapseDashes(s[1..])
    else [s[0]] + CollapseDashes(s[1..])
  }

  function TrimDashes(s: string): string {
    var t := if |s| > 0 && s[0] == '-' then s[1..] else s;
    if |t| > 0 && t[|t| - 1] == '-' then t[..|t| - 1] else t
  }

  /** Every character is a kept character or a separator. */
  predicate SlugAlphabet(s: string) {
    forall i :: 0 <= i < |s| ==> SlugChar(s[i]) || s[i] == '-'
  }

  predicate NoDoubleDash(s: string) {
    forall i :: 0 <= i < |s| - 1 ==> !(s[i] == '-' && s[i + 1] == '-')
  }

  /** A well-formed slug: only `[a-z0-9а-я-]`, no `--`, no `-` at either end. */
  predicate IsSlug(s: string) {
    SlugAlphabet(s) && NoDoubleDash(s) && (s == [] || (s[0] != '-' && s[|s| - 1] != '-'))
  }

  function GenerateSlug(name: string): (r: string)
    ensures IsSlug(r)
  {
    var marked := MarkSeparators(ToLower(name));
    CollapseFacts(marked);
    assert SlugAlphabet(CollapseDashes(marked)) by {
      var r := CollapseDashes(marked);
      forall i | 0 <= i < |r| ensures SlugChar(r[i]) || r[i] == '-' {
        assert r[i] in r;
        var j :| 0 <= j < |marked| && marked[j] == r[i];
      }
    }
    TrimFacts(CollapseDashes(marked));
    TrimDashes(CollapseDashes(marked))
  }

  lemma {:induction false} CollapseFacts(s: string)
    ensures forall c :: c in CollapseDashes(s) ==> c in s
    ensures NoDoubleDash(CollapseDashes(s))
    ensures |s| > 0 ==> |CollapseDashes(s)| > 0 && CollapseDashes(s)[0] == s[0]
    decreases |s|
  {
    if |s| > 1 {
      CollapseFacts(s[1..]);
      var rest := CollapseDashes(s[1..]);
      if !(s[0] == '-' && s[1] == '-') {
        var r := [s[0]] + rest;
        assert r[1..] == rest;
        forall i | 0 <= i < |r| - 1 ensures !(r[i] == '-' && r[i + 1] == '-') {
          if i > 0 {
            assert r[i] == rest[i - 1] && r[i + 1] == rest[i];
          }
        }
      }
    }
  }

  lemma TrimFacts(s: string)
    requires SlugAlphabet(s) && NoDoubleDash(s)
    ensures IsSlug(TrimDashes(s))
  {
    var t := if |s| > 0 && s[0] == '-' then s[1..] else s;
    assert SlugAlphabet(t) && NoDoubleDash(t) by {
      if |s| > 0 && s[0] == '-' {
        forall i | 0 <= i < |t| - 1 ensures !(t[i] == '-' && t[i + 1] == '-') {
          assert t[i] == s[i + 1] && t[i + 1] == s[i + 2];
        }
      }
    }
    assert |t| > 0 ==> t[0] != '-' by {
      if |s| > 0 && s[0] == '-' && |t| > 0 {
        assert t[0] == s[1];
      }
    }
    if |t| > 0 && t[|t| - 1] == '-' {
      var u := t[..|t| - 1];
      if |u| > 0 {
        assert u[|u| - 1] == t[|t| - 2];
        assert u[0] == t[0];
      }
      assert NoDoubleDash(u) by {
        forall i | 0 <= i < |u| - 1 ensures !(u[i] == '-' && u[i + 1] == '-') {
          assert u[i] == t[i] && u[i + 1] == t[i + 1];
        }
      }
    }
  }

  /** A slug passes through every step unchanged. */
  lemma GenerateSlugFixesSlugs(s: string)
    requires IsSlug(s)
    ensures GenerateSlug(s) == s
  {
    LowerFixesSlug(s);
    MarkFixesSlug(s);
    CollapseKeeps(s);
    assert TrimDashes(s) == s;
  }

  lemma LowerFixesSlug(s: string)
    requires SlugAlphabet(s)
    ensures ToLower(s) == s
  {
    forall i | 0 <= i < |s| ensures ToLower(s)[i] == s[i] {
      assert SlugChar(s[i]) || s[i] == '-';
    }
  }

  lemma MarkFixesSlug(s: string)
    requires SlugAlphabet(s)
    ensures MarkSeparators(s) == s
  {
    forall i | 0 <= i < |s| ensures MarkSeparators(s)[i] == s[i] {
      assert SlugChar(s[i]) || s[i] == '-';
    }
  }

  lemma {:induction false} CollapseKeeps(s: string)
    requires NoDoubleDash(s)
    ensures CollapseDashes(s) == s
    decreases |s|
  {
    if |s| > 1 {
      assert NoDoubleDash(s[1..]) by {
        forall i | 0 <= i < |s[1..]| - 1 ensures !(s[1..][i] == '-' && s[1..][i + 1] == '-') {
          assert s[1..][i] == s[i + 1] && s[1..][i + 1] == s[i + 2];
        }
      }
      CollapseKeeps(s[1..]);
      assert [s[0]] + s[1..] == s;
    }
  }

  /** `generateSlug` is idempotent. */
  lemma GenerateSlugIdempotent(name: string)
    ensures GenerateSlug(GenerateSlug(name)) == GenerateSlug(name)
  {
    GenerateSlugFixesSlugs(GenerateSlug(name));
  }

  /** The Ukrainian letters і, ї, є and ґ (in either case) lie outside `а-я`,
      so they act as separators. */
  lemma UkrainianLettersSeparate(c: char)
    requires c in "іїєґІЇЄҐ"
    ensures MarkSeparators(ToLower([c])) == "-"
    ensures GenerateSlug([c]) == ""
  {
  }

  /** Inside any name, one of the letters і, ї, є and ґ becomes a separator
      at its own position, and no slug ever contains one of them. */
  lemma UkrainianLettersSplitNames(name: string, i: int)
    requires 0 <= i < |name| && name[i] in "іїєґІЇЄҐ"
    ensures MarkSeparators(ToLower(name))[i] == '-'
    ensures forall k :: 0 <= k < |GenerateSlug(name)| ==> GenerateSlug(name)[k] !in "іїєґІЇЄҐ"
  {
    var r := GenerateSlug(name);
    forall k | 0 <= k < |r| ensures r[k] !in "іїєґІЇЄҐ" {
      assert SlugChar(r[k]) || r[k] == '-';
    }
  }

  // ---------------------------------------------------------------------------
  // The category form

  datatype FormData = FormData(
    name: string,
    slug: string,
    description: string,
    parentId: Option<JsInt>,
    image: string,
    active: bool)

  /** The optional number `n || undefined`: zero is falsy and becomes absent. */
  function TruthyId(n: Option<int>): Option<JsInt> {
    if n.Some? && n.value != 0 then Some(Int(n.value)) else None
  }

  /** The form's first state, for the category being edited or for a new one. */
  function InitialFormData(category: Option<Category>): (r: FormData)
    ensures category.None? ==> r == FormData("", "", "", None, "", true)
    ensures category.Some? ==> (r.name == category.value.name && r.slug == category.value.slug
      && r.active == category.value.active
      && r.description == OrElse(category.value.description, "")
      && r.image == OrElse(category.value.image, ""))
    ensures r.parentId.Some? <==> category.Some? && category.value.parentId.Some? && category.value.parentId.value != 0
  {
    if category.None? then FormData("", "", "", None, "", true)
    else
      var c := category.value;
      FormData(c.name, c.slug, OrElse(c.description, ""), TruthyId(c.parentId), OrElse(c.image, ""), c.active)
  }

  /** `handleNameChange`: the slug follows the name only while it is empty. */
  function NameChanged(f: FormData, name: string): (r: FormData)
    ensures r.name == name
    ensures f.slug != "" ==> r.slug == f.slug
    ensures f.slug == "" ==> r.slug == GenerateSlug(name)
    ensures r.(name := f.name, slug := f.slug) == f
  {
    f.(name := name, slug := if f.slug != "" then f.slug else GenerateSlug(name))
  }

  /** Typing in the slug field. */
  function SlugEdited(f: FormData, slug: string): (r: FormData)
    ensures r.slug == slug && r.(slug := f.slug) == f
  {
    f.(slug := slug)
  }

  /** Once the slug has been set, by hand or from a name, further name edits
      leave it alone; while the name gives an empty slug, the next name is
      tried again. */
  lemma {:induction false} SlugSticks(f: FormData, first: string, second: string)
    requires f.slug == ""
    ensures NameChanged(NameChanged(f, first), second).slug ==
      if GenerateSlug(first) != "" then GenerateSlug(first) else GenerateSlug(second)
  {
    var g := NameChanged(f, first);
    assert g.slug == GenerateSlug(first);
  }

  /** The parent dropdown's value: `''` is no parent, anything else is read
      with `parseInt`. */
  function ParentChoice(value: string): (r: Option<JsInt>)
    ensures r.None? <==> value == ""
  {
    if value == "" then None else Some(ParseInt(value))
  }

  function ParentChanged(f: FormData, value: string): (r: FormData)
    ensures r.parentId == ParentChoice(value) && r.(parentId := f.parentId) == f
  {
    f.(parentId := ParentChoice(value))
  }

  /** A category with a truthy `parentId` is not a root. */
  predicate IsRoot(c: Category) {
    !(c.parentId.Some? && c.parentId.value != 0)
  }

  predicate ParentCandidate(c: Category, editing: Option<Category>) {
    (editing.None? || c.id != editing.value.id) && IsRoot(c)
  }

  function Candidate(editing: Option<Category>): Category -> bool {
    c => ParentCandidate(c, editing)
  }

  datatype DropdownOption = DropdownOption(value: string, caption: string)

  /** `parentOptions`: every root category except the one being edited, in
      order, as `{value: id.toString(), label: name}`. */
  function ParentOptions(categories: seq<Category>, editing: Option<Category>): (r: seq<DropdownOption>)
    ensures var kept := Filter(categories, Candidate(editing));
      |r| == |kept| && forall i :: 0 <= i < |r| ==> r[i] == DropdownOption(IntToString(kept[i].id), kept[i].name)
  {
    var kept := Filter(categories, Candidate(editing));
    seq(|kept|, i requires 0 <= i < |kept| => DropdownOption(IntToString(kept[i].id), kept[i].name))
  }

  /** Every option names a root category other than the one being edited, and
      choosing it stores exactly that category's id as the parent. */
  lemma ParentOptionsAreRoots(categories: seq<Category>, editing: Option<Category>, i: int)
    requires 0 <= i < |ParentOptions(categories, editing)|
    ensures exists c :: (c in categories && IsRoot(c) && (editing.Some? ==> c.id != editing.value.id)
      && ParentChoice(ParentOptions(categories, editing)[i].value) == Some(Int(c.id)))
  {
    var kept := Filter(categories, Candidate(editing));
    var c := kept[i];
    assert c in kept;
    ParseIntOfIntToString(c.id);
    assert IntToString(c.id) != "" by {
      assert ParseInt("") == NaN;
    }
  }

  /** A category being edited is never offered as its own parent. */
  lemma NotOwnParent(categories: seq<Category>, c: Category)
    ensures forall o :: o in ParentOptions(categories, Some(c)) ==>
      exists d :: d in categories && d.id != c.id && o.value == IntToString(d.id)
  {
    var kept := Filter(categories, Candidate(Some(c)));
    forall o | o in ParentOptions(categories, Some(c))
      ensures exists d :: d in categories && d.id != c.id && o.value == IntToString(d.id)
    {
      var i :| 0 <= i < |ParentOptions(categories, Some(c))| && ParentOptions(categories, Some(c))[i] == o;
      assert kept[i] in kept;
    }
  }

  // ---------------------------------------------------------------------------
  // The page's state

  /** What the page asks of its parent through the optional callbacks. */
  datatype Request = Add(data: FormData) | Edit(id: int, data: FormData) | Delete(id: int) | ToggleActive(id: int, active: bool)

  class CategoryManager {
    var categories: seq<Category>
    var editingCategory: Option<Category>
    var showAddModal: bool
    var showDeleteModal: bool
    var categoryToDelete: Option<Category>
    var requests: seq<Request>
    /** How many times the list was (re)fetched. */
    var fetches: nat

    constructor ()
      ensures categories == [] && editingCategory.None? && !showAddModal && !showDeleteModal
      ensures categoryToDelete.None? && requests == [] && fetches == 1
    {
      categories, editingCategory, showAddModal, showDeleteModal := [], None, false, false;
      categoryToDelete, requests, fetches := None, [], 1;
    }

    /** A fetch settling: the list it builds (the mock list, an input here)
        replaces the shown categories, and nothing else changes. */
    method FetchSettled(list: seq<Category>)
      modifies this
      ensures categories == list && editingCategory == old(editingCategory)
      ensures showAddModal == old(showAddModal) && showDeleteModal == old(showDeleteModal)
      ensures categoryToDelete == old(categoryToDelete) && requests == old(requests) && fetches == old(fetches)
    {
      categories := list;
    }

    /** The header's add button opens the add modal. */
    method OpenAdd()
      modifies this
      ensures showAddModal && categories == old(categories) && editingCategory == old(editingCategory)
      ensures showDeleteModal == old(showDeleteModal) && categoryToDelete == old(categoryToDelete)
      ensures requests == old(requests) && fetches == old(fetches)
    {
      showAddModal := true;
    }

    /** The add modal's close button or its form's cancel: only the modal
        closes. */
    method CloseAdd()
      modifies this
      ensures !showAddModal && categories == old(categories) && editingCategory == old(editingCategory)
      ensures showDeleteModal == old(showDeleteModal) && categoryToDelete == old(categoryToDelete)
      ensures requests == old(requests) && fetches == old(fetches)
    {
      showAddModal := false;
    }

    /** A card's edit button: the edit modal opens on that category. */
    method StartEdit(c: Category)
      modifies this
      ensures editingCategory == Some(c) && categories == old(categories) && showAddModal == old(showAddModal)
      ensures showDeleteModal == old(showDeleteModal) && categoryToDelete == old(categoryToDelete)
      ensures requests == old(requests) && fetches == old(fetches)
    {
      editingCategory := Some(c);
    }

    /** The edit modal's close button or its form's cancel: editing ends. */
    method CloseEdit()
      modifies this
      ensures editingCategory.None? && categories == old(categories) && showAddModal == old(showAddModal)
      ensures showDeleteModal == old(showDeleteModal) && categoryToDelete == old(categoryToDelete)
      ensures requests == old(requests) && fetches == old(fetches)
    {
      editingCategory := None;
    }

    /** The edit form's submit. The form is rendered only while a category is
        being edited, and it edits that category's id. */
    method SubmitEdit(data: FormData)
      requires editingCategory.Some?
      modifies this
      ensures requests == old(requests) + [Edit(old(editingCategory).value.id, data)]
      ensures editingCategory.None? && fetches == old(fetches) + 1
      ensures categories == old(categories) && showAddModal == old(showAddModal)
      ensures showDeleteModal == old(showDeleteModal) && categoryToDelete == old(categoryToDelete)
    {
      HandleEdit(editingCategory.value.id, data);
    }

    /** The trash button of a card. */
    method AskDelete(c: Category)
      modifies this
      ensures categoryToDelete == Some(c) && showDeleteModal
      ensures categories == old(categories) && editingCategory == old(editingCategory)
      ensures showAddModal == old(showAddModal) && requests == old(requests) && fetches == old(fetches)
    {
      categoryToDelete, showDeleteModal := Some(c), true;
    }

    /** The delete modal's Cancel: only the modal closes. */
    method CancelDelete()
      modifies this
      ensures !showDeleteModal && categoryToDelete == old(categoryToDelete)
      ensures categories == old(categories) && editingCategory == old(editingCategory)
      ensures showAddModal == old(showAddModal) && requests == old(requests) && fetches == old(fetches)
    {
      showDeleteModal := false;
    }

    /** `handleDeleteCategory`: nothing happens without a target; otherwise
        the deletion is requested, the target cleared, the modal closed and
        the list refetched. */
    method HandleDelete()
      modifies this
      ensures old(categoryToDelete).None? ==>
        categoryToDelete.None? && showDeleteModal == old(showDeleteModal)
        && requests == old(requests) && fetches == old(fetches)
      ensures old(categoryToDelete).Some? ==>
        categoryToDelete.None? && !showDeleteModal
        && requests == old(requests) + [Delete(old(categoryToDelete).value.id)]
        && fetches == old(fetches) + 1
      ensures categories == old(categories) && editingCategory == old(editingCategory)
      ensures showAddModal == old(showAddModal)
    {
      if categoryToDelete.Some? {
        requests := requests + [Delete(categoryToDelete.value.id)];
        categoryToDelete := None;
        showDeleteModal := false;
        fetches := fetches + 1;
      }
    }

    /** `handleAddCategory`. */
    method HandleAdd(data: FormData)
      modifies this
      ensures requests == old(requests) + [Add(data)] && !showAddModal && fetches == old(fetches) + 1
      ensures categories == old(categories) && editingCategory == old(editingCategory)
      ensures showDeleteModal == old(showDeleteModal) && categoryToDelete == old(categoryToDelete)
    {
      requests := requests + [Add(data)];
      showAddModal := false;
      fetches := fetches + 1;
    }

    /** `handleEditCategory`. */
    method HandleEdit(id: int, data: FormData)
      modifies this
      ensures requests == old(requests) + [Edit(id, data)] && editingCategory.None? && fetches == old(fetches) + 1
      ensures categories == old(categories) && showAddModal == old(showAddModal)
      ensures showDeleteModal == old(showDeleteModal) && categoryToDelete == old(categoryToDelete)
    {
      requests := requests + [Edit(id, data)];
      editingCategory := None;
      fetches := fetches + 1;
    }

    /** The active toggle asks for the opposite of the card's `active`. */
    method HandleToggle(c: Category)
      modifies this
      ensures requests == old(requests) + [ToggleActive(c.id, !c.active)]
      ensures categories == old(categories) && editingCategory == old(editingCategory)
      ensures showAddModal == old(showAddModal) && showDeleteModal == old(showDeleteModal)
      ensures categoryToDelete == old(categoryToDelete) && fetches == old(fetches)
    {
      requests := requests + [ToggleActive(c.id, !c.active)];
    }
  }
}
