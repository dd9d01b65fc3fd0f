/** The task table's view state and its event handlers (PostTable.tsx): each
    `useState` slot is a field, each handler a method whose frame names the
    slots it sets. */
module PostTable {

  import opened Wrappers
  import opened Tasks
  import opened ListView

  /** The choices of the "Show Item" menu. */
  const PageSizes: set<int> := {10, 25, 50}

  /** The choices of the sort menu. */
  const SortChoices: set<Field> := {Title, Priority, DueDate}

  /** The Prev button's updater, `prev => Math.max(prev - 1, 1)`. */
  function PrevPage(prev: int): (r: int)
    ensures 1 <= r
    ensures prev >= 2 ==> r == prev - 1
    ensures prev < 2 ==> r == 1
  {
    if prev - 1 > 1 then prev - 1 else 1
  }

  /** The Next button's updater, `prev => Math.min(prev + 1, totalPages)`. */
  function NextPage(prev: int, total: int): (r: int)
    ensures r <= total
    ensures prev < total ==> r == prev + 1
    ensures prev >= total ==> r == total
  {
    if prev + 1 < total then prev + 1 else total
  }

  class PostTableView {
    /** The cached result of the task query; None while there is no data. */
    var posts: Option<seq<Task>>
    var searchTerm: string
    var sortField: Field
    var sortOrder: SortOrder
    var currentPage: int
    var itemsPerPage: int
    var isEditModalOpen: bool
    var selectedPost: Option<Task>
    var isConfirmModalOpen: bool
    var postToDelete: Option<string>
    var isCreateModalOpen: bool

    ghost predicate Valid()
      reads this
    {
      itemsPerPage in PageSizes && sortField in SortChoices
    }

    /** The `useState` initial values. */
    constructor ()
      ensures Valid()
      ensures posts == None && searchTerm == "" && sortField == Title && sortOrder == Asc
      ensures currentPage == 1 && itemsPerPage == 10
      ensures !isEditModalOpen && selectedPost == None
      ensures !isConfirmModalOpen && postToDelete == None && !isCreateModalOpen
    {
      posts := None;
      searchTerm, sortField, sortOrder := "", Title, Asc;
      currentPage, itemsPerPage := 1, 10;
      isEditModalOpen, selectedPost := false, None;
      isConfirmModalOpen, postToDelete, isCreateModalOpen := false, None, false;
    }

    function Filtered(): seq<Task>
      reads this
    {
      FilteredPosts(posts, searchTerm, sortField, sortOrder)
    }

    /** `totalPages`: 0 exactly when no task passes the filter. */
    function Total(): (r: nat)
      requires Valid()
      reads this
      ensures |Filtered()| <= r * itemsPerPage
      ensures r == 0 <==> |Filtered()| == 0
    {
      TotalPagesZero(|Filtered()|, itemsPerPage);
      TotalPages(|Filtered()|, itemsPerPage)
    }

    /** `paginatedPosts`: from page 1 on, the run of at most `itemsPerPage`
        filtered tasks that starts at `(currentPage - 1) * itemsPerPage`. */
    function Paginated(): (r: seq<Task>)
      requires Valid()
      reads this
      ensures |r| <= itemsPerPage
      ensures currentPage >= 1 ==>
        var s, from := Filtered(), (currentPage - 1) * itemsPerPage;
        0 <= from &&
        r == if from < |s| then s[from..if from + itemsPerPage < |s| then from + itemsPerPage else |s|] else []
    {
      PageBoundsSign(currentPage, itemsPerPage);
      PageWindow(Filtered(), currentPage, itemsPerPage)
    }

    /** `disabled={currentPage === 1}` */
    predicate PrevDisabled()
      reads this
    {
      currentPage == 1
    }

    /** `disabled={currentPage === totalPages}` */
    predicate NextDisabled()
      requires Valid()
      reads this
    {
      currentPage == Total()
    }

    /** The task query delivers (or re-delivers after an invalidation) data. */
    method LoadPosts(data: seq<Task>)
      modifies this`posts
      ensures posts == Some(data)
    {
      posts := Some(data);
    }

    /** `resetFilters`: the five view settings go back to their defaults; the
        data, the modals and the pending delete stay as they are. */
    method ResetFilters()
      modifies this`searchTerm, this`sortField, this`sortOrder, this`currentPage, this`itemsPerPage
      ensures Valid()
      ensures searchTerm == "" && sortField == Title && sortOrder == Asc
      ensures currentPage == 1 && itemsPerPage == 10
    {
      searchTerm := "";
      sortField := Title;
      sortOrder := Asc;
      currentPage := 1;
      itemsPerPage := 10;
    }

    /** Typing in the search box also goes back to page 1. */
    method ChangeSearch(value: string)
      modifies this`searchTerm, this`currentPage
      ensures searchTerm == value && currentPage == 1
    {
      searchTerm := value;
      currentPage := 1;
    }

    /** Choosing a sort field keeps the current page. */
    method ChangeSortField(f: Field)
      requires Valid() && f in SortChoices
      modifies this`sortField
      ensures Valid() && sortField == f
    {
      sortField := f;
    }

    /** The order button flips the order and keeps the current page. */
    method ToggleSortOrder()
      modifies this`sortOrder
      ensures sortOrder == Toggle(old(sortOrder))
    {
      sortOrder := Toggle(sortOrder);
    }

    /** Choosing a page size also goes back to page 1. */
    method ChangeItemsPerPage(n: int)
      requires Valid() && n in PageSizes
      modifies this`itemsPerPage, this`currentPage
      ensures Valid() && itemsPerPage == n && currentPage == 1
    {
      itemsPerPage := n;
      currentPage := 1;
    }

    /** A click on Prev; a disabled button does nothing. The page is never
        below 1 afterwards. */
    method ClickPrev()
      modifies this`currentPage
      ensures currentPage == if old(PrevDisabled()) then old(currentPage) else PrevPage(old(currentPage))
      ensures 1 <= currentPage
    {
      if !PrevDisabled() {
        currentPage := PrevPage(currentPage);
      }
    }

    /** A click on Next; a disabled button does nothing. The page is never
        above the page count afterwards; with no tasks, page 1 becomes 0. */
    method ClickNext()
      requires Valid()
      modifies this`currentPage
      ensures currentPage == if old(NextDisabled()) then old(currentPage) else NextPage(old(currentPage), Total())
      ensures currentPage <= Total()
    {
      if !NextDisabled() {
        currentPage := NextPage(currentPage, Total());
      }
    }

    /** `handleDeleteClick`: remembers the task and opens the confirmation. */
    method HandleDeleteClick(id: string)
      modifies this`postToDelete, this`isConfirmModalOpen
      ensures postToDelete == Some(id) && isConfirmModalOpen
    {
      postToDelete := Some(id);
      isConfirmModalOpen := true;
    }

    /** `confirmDelete`: a DELETE is sent only for a pending id. The list is
        refetched and the confirmation closed only when the request resolves;
        `fetched` is the list the refetch returns. Otherwise nothing changes. */
    method ConfirmDelete(resolved: bool, fetched: seq<Task>) returns (request: Option<string>)
      modifies this`posts, this`isConfirmModalOpen
      ensures request == postToDelete
      ensures request.Some? && resolved ==> posts == Some(fetched) && !isConfirmModalOpen
      ensures request.None? || !resolved ==>
                posts == old(posts) && isConfirmModalOpen == old(isConfirmModalOpen)
    {
      request := postToDelete;
      if request.Some? && resolved {
        posts := Some(fetched);
        isConfirmModalOpen := false;
      }
    }

    /** The confirmation's cancel button. */
    method CloseConfirm()
      modifies this`isConfirmModalOpen
      ensures !isConfirmModalOpen
    {
      isConfirmModalOpen := false;
    }

    /** The Edit button of a row. */
    method OpenEdit(post: Task)
      modifies this`selectedPost, this`isEditModalOpen
      ensures selectedPost == Some(post) && isEditModalOpen
    {
      selectedPost := Some(post);
      isEditModalOpen := true;
    }

    /** The edit form's `onUpdate`: the list is refetched. */
    method EditOnUpdate(fetched: seq<Task>)
      modifies this`posts
      ensures posts == Some(fetched)
    {
      posts := Some(fetched);
    }

    /** The edit form's `onClose`. */
    method EditOnClose()
      modifies this`isEditModalOpen
      ensures !isEditModalOpen
    {
      isEditModalOpen := false;
    }

    method OpenCreate()
      modifies this`isCreateModalOpen
      ensures isCreateModalOpen
    {
      isCreateModalOpen := true;
    }

    /** The create form's `onClose`. */
    method CloseCreate()
      modifies this`isCreateModalOpen
      ensures !isCreateModalOpen
    {
      isCreateModalOpen := false;
    }
  }

  /** What a caller can rely on from the contracts alone. */
  method Walkthrough(t: Task)
  {
    var view := new PostTableView();
    view.LoadPosts([]);
    assert view.Filtered() == [] && view.Total() == 0;
    // With no tasks, Next is enabled on page 1 and moves to page 0.
    view.ClickNext();
    assert view.currentPage == 0;
    view.ClickPrev();
    assert view.currentPage == 1;

    view.HandleDeleteClick("42");
    var sent := view.ConfirmDelete(false, [t]);
    assert sent == Some("42") && view.isConfirmModalOpen && view.posts == Some([]);
    sent := view.ConfirmDelete(true, [t]);
    assert !view.isConfirmModalOpen && view.posts == Some([t]);

    view.ToggleSortOrder();
    view.ToggleSortOrder();
    assert view.sortOrder == Asc && view.currentPage == 1;
  }
}
