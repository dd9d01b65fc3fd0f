/** The task table's derived view: the search filter, the comparator sort and
    the page window, as pure functions of the fetched list and the view state
    (`filteredPosts`, `totalPages` and `paginatedPosts` in PostTable.tsx). */
module ListView {

  import opened Wrappers
  import opened Text
  import opened Tasks

  datatype SortOrder = Asc | Desc

  /** The sort-order button flips between the two orders. */
  function Toggle(o: SortOrder): (r: SortOrder)
    ensures r != o
  {
    if o == Asc then Desc else Asc
  }

  lemma ToggleInvolution(o: SortOrder)
    ensures Toggle(Toggle(o)) == o
  {
  }

  // ----- Filter -----

  /** The search test: the lower-cased title includes the lower-cased term. */
  predicate Matches(t: Task, term: string)
  {
    Includes(ToLower(t.title), ToLower(term))
  }

  /** `posts.filter(...)`: keeps the matching tasks, each as often as the
      input holds it, and no other task. */
  function Filter(posts: seq<Task>, term: string): (r: seq<Task>)
    ensures |r| <= |posts|
    ensures forall t :: t in r ==> Matches(t, term)
    ensures forall t :: multiset(r)[t] == if Matches(t, term) then multiset(posts)[t] else 0
  {
    if posts == [] then []
    else
      assert posts == [posts[0]] + posts[1..];
      (if Matches(posts[0], term) then [posts[0]] else []) + Filter(posts[1..], term)
  }

  /** With an empty search term every task is kept, in its order. */
  lemma {:induction false} FilterEmptyTerm(posts: seq<Task>)
    ensures Filter(posts, "") == posts
  {
    if posts != [] {
      assert ToLower("") == "";
      IncludesEmpty(ToLower(posts[0].title));
      FilterEmptyTerm(posts[1..]);
      assert posts == [posts[0]] + posts[1..];
    }
  }

  /** The search does not depend on the case of the term. */
  lemma FilterIgnoresTermCase(posts: seq<Task>, term: string)
    ensures Filter(posts, ToLower(term)) == Filter(posts, term)
  {
    ToLowerIdempotent(term);
  }

  // ----- Sort -----

  /** `a <= b` in the chosen direction: for Asc the key of `a` is not above
      the key of `b`, for Desc not below. */
  predicate InOrder(o: SortOrder, a: string, b: string)
  {
    if o == Asc then !Less(b, a) else !Less(a, b)
  }

  lemma InOrderTotal(o: SortOrder, a: string, b: string)
    ensures InOrder(o, a, b) || InOrder(o, b, a)
  {
    LessAsymmetric(a, b);
  }

  lemma InOrderTransitive(o: SortOrder, a: string, b: string, c: string)
    requires InOrder(o, a, b) && InOrder(o, b, c)
    ensures InOrder(o, a, c)
  {
    if o == Asc {
      if Less(c, a) {
        if a == b {
        } else {
          LessConnected(a, b);
          assert Less(a, b);
          LessTransitive(c, a, b);
        }
      }
    } else {
      if Less(a, c) {
        if a == b {
        } else {
          LessConnected(a, b);
          assert Less(b, a);
          LessTransitive(b, a, c);
        }
      }
    }
  }

  /** The comparator of the source: it never answers 0, and it answers -1
      exactly when `a` may stay in front of `b` in the chosen direction. */
  function Compare(o: SortOrder, f: Field, a: Task, b: Task): (r: int)
    ensures r == 1 || r == -1
    ensures r < 0 <==> InOrder(o, Key(f, a), Key(f, b))
  {
    var ka, kb := Key(f, a), Key(f, b);
    if o == Asc then (if Less(kb, ka) then 1 else -1)
    else (if Less(ka, kb) then 1 else -1)
  }

  /** On equal keys the comparator answers -1 both ways round. */
  lemma CompareTie(o: SortOrder, f: Field, a: Task, b: Task)
    requires Key(f, a) == Key(f, b)
    ensures Compare(o, f, a, b) == -1 && Compare(o, f, b, a) == -1
  {
    LessIrreflexive(Key(f, a));
  }

  ghost predicate Sorted(o: SortOrder, f: Field, s: seq<Task>)
  {
    forall i, j :: 0 <= i < j < |s| ==> InOrder(o, Key(f, s[i]), Key(f, s[j]))
  }

  /** Places `x` in front of the first task the comparator does not put it
      after. */
  function Insert(o: SortOrder, f: Field, x: Task, s: seq<Task>): (r: seq<Task>)
    requires Sorted(o, f, s)
    ensures Sorted(o, f, r)
    ensures multiset(r) == multiset(s) + multiset{x}
  {
    if s == [] then [x]
    else if Compare(o, f, x, s[0]) > 0 then
      var rest := Insert(o, f, x, s[1..]);
      assert s == [s[0]] + s[1..];
      InOrderTotal(o, Key(f, x), Key(f, s[0]));
      forall k | 0 <= k < |rest|
        ensures InOrder(o, Key(f, s[0]), Key(f, rest[k]))
      {
        assert rest[k] in multiset(rest);
        if rest[k] != x {
          assert rest[k] in multiset(s[1..]);
          var j :| 0 <= j < |s[1..]| && s[1..][j] == rest[k];
          assert s[j + 1] == rest[k];
        }
      }
      [s[0]] + rest
    else
      forall k | 0 <= k < |s|
        ensures InOrder(o, Key(f, x), Key(f, s[k]))
      {
        if k > 0 { InOrderTransitive(o, Key(f, x), Key(f, s[0]), Key(f, s[k])); }
      }
      [x] + s
  }

  /** `.sort(comparator)`: a permutation of the input that is in order by the
      key. The relative order of tasks with equal keys is not specified. */
  function Sort(o: SortOrder, f: Field, s: seq<Task>): (r: seq<Task>)
    ensures Sorted(o, f, r)
    ensures multiset(r) == multiset(s)
  {
    if s == [] then []
    else
      assert s == [s[0]] + s[1..];
      Insert(o, f, s[0], Sort(o, f, s[1..]))
  }

  /** `filteredPosts`: no data yields the empty list; otherwise the matching
      tasks, sorted. */
  function FilteredPosts(posts: Option<seq<Task>>, term: string, f: Field, o: SortOrder): (r: seq<Task>)
    ensures posts.None? ==> r == []
    ensures Sorted(o, f, r)
    ensures forall t :: multiset(r)[t] ==
                        if posts.Some? && Matches(t, term) then multiset(posts.value)[t] else 0
  {
    match posts
    case None => []
    case Some(p) => Sort(o, f, Filter(p, term))
  }

  // ----- Pagination -----

  /** `Math.ceil(count / size)`: the fewest pages of `size` that hold `count`
      tasks; 0 when there are none. */
  function TotalPages(count: nat, size: int): (r: nat)
    requires size > 0
    ensures count <= r * size
    ensures r == 0 || (r - 1) * size < count
  {
    (count + size - 1) / size
  }

  lemma TotalPagesZero(count: nat, size: int)
    requires size > 0
    ensures TotalPages(count, size) == 0 <==> count == 0
  {
  }

  /** `Array.prototype.slice(start, end)`: a negative index counts from the
      end, both indices are clamped to the list. */
  function Slice<T>(s: seq<T>, start: int, end: int): (r: seq<T>)
    ensures (start < 0) == (end <= 0) ==> |r| <= if end - start < 0 then 0 else end - start
    ensures 0 <= start <= end <= |s| ==> r == s[start..end]
    ensures 0 <= start <= end ==>
      r == if start < |s| then s[start..if end < |s| then end else |s|] else []
  {
    var from := if start < 0 then (if |s| + start < 0 then 0 else |s| + start)
                else (if start < |s| then start else |s|);
    var to := if end < 0 then (if |s| + end < 0 then 0 else |s| + end)
              else (if end < |s| then end else |s|);
    if from < to then s[from..to] else []
  }

  /** `paginatedPosts` for page `page` of `size` tasks. */
  function PageWindow(s: seq<Task>, page: int, size: int): (r: seq<Task>)
    requires size > 0
    ensures |r| <= size
  {
    PageBoundsSign(page, size);
    Slice(s, (page - 1) * size, page * size)
  }

  lemma MulLe(a: int, b: int, n: int)
    requires a <= b && 0 <= n
    ensures a * n <= b * n
  {
  }

  /** A page's start index is negative exactly when its end index is not
      positive, that is, for pages 0, -1, ... */
  lemma PageBoundsSign(page: int, size: int)
    requires size > 0
    ensures ((page - 1) * size < 0) == (page * size <= 0)
  {
    if page >= 1 { MulLe(1, page, size); } else { MulLe(page, 0, size); }
  }

  /** Every page before the last is full and is the expected run of tasks. */
  lemma FullPage(s: seq<Task>, page: int, size: int)
    requires size > 0 && 1 <= page < TotalPages(|s|, size)
    ensures page * size <= |s|
    ensures PageWindow(s, page, size) == s[(page - 1) * size..page * size]
    ensures |PageWindow(s, page, size)| == size
  {
    var t := TotalPages(|s|, size);
    MulLe(page, t - 1, size);
    MulLe(1, page, size);
  }

  /** The last page holds what remains: between 1 and `size` tasks. */
  lemma LastPage(s: seq<Task>, size: int)
    requires size > 0 && 0 < |s|
    ensures var t := TotalPages(|s|, size);
      (t - 1) * size < |s| <= t * size &&
      PageWindow(s, t, size) == s[(t - 1) * size..] &&
      |PageWindow(s, t, size)| == |s| - (t - 1) * size
  {
    var t := TotalPages(|s|, size);
    MulLe(1, t, size);
  }

  /** Page 0 and the pages after the last are empty. */
  lemma PageOutOfRange(s: seq<Task>, page: int, size: int)
    requires size > 0 && (page == 0 || TotalPages(|s|, size) < page)
    ensures PageWindow(s, page, size) == []
  {
    var t := TotalPages(|s|, size);
    if page > t { MulLe(t, page - 1, size); }
    else { assert page * size == 0; }
  }

  /** Pages 1..k, one after the other. */
  function Pages(s: seq<Task>, size: int, k: nat): seq<Task>
    requires size > 0
  {
    if k == 0 then [] else Pages(s, size, k - 1) + PageWindow(s, k, size)
  }

  lemma {:induction false} PagesPrefix(s: seq<Task>, size: int, k: nat)
    requires size > 0
    ensures Pages(s, size, k) == s[..if k * size < |s| then k * size else |s|]
  {
    if k > 0 {
      PagesPrefix(s, size, k - 1);
      MulLe(k - 1, k, size);
      MulLe(0, k - 1, size);
      var a := if (k - 1) * size < |s| then (k - 1) * size else |s|;
      var b := if k * size < |s| then k * size else |s|;
      assert PageWindow(s, k, size) == s[a..b];
      assert s[..a] + s[a..b] == s[..b];
    }
  }

  /** Pages 1..totalPages put together give back the whole list. */
  lemma PagesCoverList(s: seq<Task>, size: int)
    requires size > 0
    ensures Pages(s, size, TotalPages(|s|, size)) == s
  {
    PagesPrefix(s, size, TotalPages(|s|, size));
  }
}
