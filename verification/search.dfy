/** `getTasks()` of todo.jsx and todo.js: the current user's tasks,
    narrowed by the search keyword when one is set, then sorted by due time
    (creation time when no due time was given). `Array.prototype.sort` is
    stable, so tasks with equal keys keep their store order; `Sort` below is
    a stable insertion sort and is characterised by exactly that. */
module Search {
  import opened Base
  import opened Seqs
  import opened Text
  import opened Records

  /** `new Date(t.completionTime || t.createdAt)`. */
  function Key(t: Task): int {
    t.completionTime.GetOr(t.createdAt)
  }

  predicate Sorted(s: seq<Task>) {
    forall i, j | 0 <= i < j < |s| :: Key(s[i]) <= Key(s[j])
  }

  /** The tasks of `s` whose key is `k`, in their order in `s`. */
  function WithKey(s: seq<Task>, k: int): seq<Task> {
    Filter(s, (t: Task) => Key(t) == k)
  }

  /** Places `x` in front of the first task whose key is not smaller. */
  function Insert(x: Task, s: seq<Task>): (r: seq<Task>)
    ensures |r| == |s| + 1
    ensures Sorted(s) ==> Sorted(r)
    ensures forall i | 0 <= i < |r| :: r[i] == x || r[i] in s
  {
    if s == [] || Key(x) <= Key(s[0]) then [x] + s
    else
      var r := [s[0]] + Insert(x, s[1..]);
      assert forall i | 1 <= i < |r| :: r[i] == x || r[i] in s[1..];
      r
  }

  /** Insertion sort by `Key`. */
  function Sort(s: seq<Task>): (r: seq<Task>)
    ensures |r| == |s|
    ensures Sorted(r)
  {
    if s == [] then [] else Insert(s[0], Sort(s[1..]))
  }

  /** Inserting adds one occurrence of `x`. */
  lemma {:induction false} InsertMultiset(x: Task, s: seq<Task>)
    ensures multiset(Insert(x, s)) == multiset(s) + multiset{x}
  {
    if s != [] && Key(x) > Key(s[0]) {
      InsertMultiset(x, s[1..]);
      assert s == [s[0]] + s[1..];
    }
  }

  /** `Sort` permutes its input. */
  lemma {:induction false} SortMultiset(s: seq<Task>)
    ensures multiset(Sort(s)) == multiset(s)
  {
    if s != [] {
      SortMultiset(s[1..]);
      InsertMultiset(s[0], Sort(s[1..]));
      assert s == [s[0]] + s[1..];
    }
  }

  /** `x` lands in front of every task with the same key. */
  lemma {:induction false} InsertStable(x: Task, s: seq<Task>, k: int)
    ensures WithKey(Insert(x, s), k) == if Key(x) == k then [x] + WithKey(s, k) else WithKey(s, k)
  {
    if s == [] || Key(x) <= Key(s[0]) {
      assert ([x] + s)[1..] == s;
      WithKeyCons([x] + s, k);
    } else {
      var r := [s[0]] + Insert(x, s[1..]);
      assert r[1..] == Insert(x, s[1..]);
      InsertStable(x, s[1..], k);
      WithKeyCons(r, k);
      WithKeyCons(s, k);
    }
  }

  /** `Sort` is stable: for every key, the tasks with that key come out in
      the order they came in. */
  lemma {:induction false} SortStable(s: seq<Task>, k: int)
    ensures WithKey(Sort(s), k) == WithKey(s, k)
  {
    if s != [] {
      SortStable(s[1..], k);
      InsertStable(s[0], Sort(s[1..]), k);
    }
  }

  lemma WithKeyCons(s: seq<Task>, k: int)
    requires s != []
    ensures WithKey(s, k) == (if Key(s[0]) == k then [s[0]] else []) + WithKey(s[1..], k)
  {
  }

  /** The first task of a sorted sequence carries its smallest key. */
  lemma FirstIsLeast(s: seq<Task>, t: Task)
    requires Sorted(s) && s != [] && t in s
    ensures Key(s[0]) <= Key(t)
  {
  }

  /** A sorted sequence is determined by its tasks per key: two sorted
      sequences that agree on `WithKey` for every key are equal. So any
      stable sort by `Key` returns what `Sort` returns. */
  lemma {:induction false} SortedUnique(a: seq<Task>, b: seq<Task>)
    requires Sorted(a) && Sorted(b)
    requires forall k :: WithKey(a, k) == WithKey(b, k)
    ensures a == b
  {
    if a != [] {
      WithKeyCons(a, Key(a[0]));
    }
    if b != [] {
      WithKeyCons(b, Key(b[0]));
    }
    if a != [] && b != [] {
      var ka, kb := Key(a[0]), Key(b[0]);
      FilterMembers(a, (t: Task) => Key(t) == kb);
      FilterMembers(b, (t: Task) => Key(t) == ka);
      assert b[0] in WithKey(b, kb);
      assert a[0] in WithKey(a, ka);
      FirstIsLeast(a, b[0]);
      FirstIsLeast(b, a[0]);
      assert ka == kb;
      assert WithKey(a, ka)[0] == a[0];
      assert WithKey(b, ka)[0] == b[0];
      assert a[0] == b[0];
      forall k ensures WithKey(a[1..], k) == WithKey(b[1..], k) {
        WithKeyCons(a, k);
        WithKeyCons(b, k);
        var n := if Key(a[0]) == k then 1 else 0;
        assert WithKey(a[1..], k) == WithKey(a, k)[n..];
        assert WithKey(b[1..], k) == WithKey(b, k)[n..];
      }
      SortedUnique(a[1..], b[1..]);
      assert a == [a[0]] + a[1..];
      assert b == [b[0]] + b[1..];
    }
  }

  /** The search test: the lower-cased keyword occurs in the lower-cased
      title or content. */
  predicate MatchesKeyword(t: Task, keyword: string) {
    Includes(Lower(t.title), Lower(keyword)) || Includes(Lower(t.content), Lower(keyword))
  }

  /** The keyword test ignores the case of ASCII letters in the title, the
      content and the keyword: tasks and keywords that differ only in case
      get the same answer. */
  lemma KeywordCaseInsensitive(t: Task, u: Task, keyword: string, other: string)
    requires SameIgnoringCase(t.title, u.title) && SameIgnoringCase(t.content, u.content)
    requires SameIgnoringCase(keyword, other)
    ensures MatchesKeyword(t, keyword) <==> MatchesKeyword(u, other)
  {
    LowerIgnoresCase(t.title, u.title);
    LowerIgnoresCase(t.content, u.content);
    LowerIgnoresCase(keyword, other);
  }

  /** What `getTasks` shows: owned by the current user (none when nobody is
      signed in) and, when the keyword is non-empty, matching it. */
  predicate Selected(t: Task, userId: Option<int>, keyword: string) {
    userId == Some(t.userId) && (keyword == [] || MatchesKeyword(t, keyword))
  }

  /** `tasks.filter(t => t.userId === currentUser?.id)`. */
  function OwnedBy(tasks: seq<Task>, userId: Option<int>): seq<Task> {
    Filter(tasks, (t: Task) => userId == Some(t.userId))
  }

  /** The keyword filter. */
  function Matching(tasks: seq<Task>, keyword: string): seq<Task> {
    Filter(tasks, (t: Task) => MatchesKeyword(t, keyword))
  }

  /** The selected tasks in store order. */
  function SelectedIn(tasks: seq<Task>, userId: Option<int>, keyword: string): seq<Task> {
    Filter(tasks, (t: Task) => Selected(t, userId, keyword))
  }

  /** `getTasks()`: filter by owner, then by keyword when it is non-empty, then sort. */
  function Visible(tasks: seq<Task>, userId: Option<int>, keyword: string): seq<Task> {
    var own := OwnedBy(tasks, userId);
    Sort(if keyword == [] then own else Matching(own, keyword))
  }

  /** The two filters select the same tasks, in the same order, as `Selected`. */
  lemma {:induction false} TwoFilters(tasks: seq<Task>, userId: Option<int>, keyword: string)
    ensures (if keyword == [] then OwnedBy(tasks, userId) else Matching(OwnedBy(tasks, userId), keyword))
         == SelectedIn(tasks, userId, keyword)
  {
    if tasks != [] {
      TwoFilters(tasks[1..], userId, keyword);
      var t := tasks[0];
      var rest := OwnedBy(tasks[1..], userId);
      if userId == Some(t.userId) {
        assert OwnedBy(tasks, userId) == [t] + rest;
        assert ([t] + rest)[1..] == rest;
      } else {
        assert OwnedBy(tasks, userId) == rest;
      }
    }
  }

  /** `getTasks` returns exactly the selected tasks of the store, each as
      often as it is stored, sorted by key, with equal keys in store order. */
  lemma VisibleIsStableSortOfSelected(tasks: seq<Task>, userId: Option<int>, keyword: string)
    ensures var r := Visible(tasks, userId, keyword);
            && Sorted(r)
            && (forall t :: multiset(r)[t] == if Selected(t, userId, keyword) then multiset(tasks)[t] else 0)
            && (forall k :: WithKey(r, k) == WithKey(SelectedIn(tasks, userId, keyword), k))
  {
    var sel := SelectedIn(tasks, userId, keyword);
    TwoFilters(tasks, userId, keyword);
    SortMultiset(sel);
    forall t ensures multiset(Sort(sel))[t] == if Selected(t, userId, keyword) then multiset(tasks)[t] else 0 {
      FilterMultiset(tasks, (t: Task) => Selected(t, userId, keyword), t);
    }
    forall k ensures WithKey(Sort(sel), k) == WithKey(sel, k) {
      SortStable(sel, k);
    }
  }

  /** Nobody sees a task owned by another user, and nothing is shown when
      nobody is signed in. */
  lemma VisibleOnlyOwn(tasks: seq<Task>, userId: Option<int>, keyword: string, t: Task)
    requires t in Visible(tasks, userId, keyword)
    ensures userId == Some(t.userId) && t in tasks
  {
    VisibleIsStableSortOfSelected(tasks, userId, keyword);
    assert multiset(Visible(tasks, userId, keyword))[t] > 0;
  }
}
