/** How the page arranges its tasks: the active/archived partition, the four priority columns
    sorted by deadline, the archive sorted by priority, and the counters above the board. */
module TaskBoard {
  import opened Wrappers
  import opened TodoEnums
  import opened Countdown
  import Text

  /** A task as the page holds it (the fields the page's logic reads). */
  datatype Todo = Todo(
    id: string,
    title: string,
    description: string,
    status: Status,
    priority: Priority,
    deadline: Option<Ms>)

  // ---------------------------------------------------------------------------
  // Array.prototype.filter

  /** The elements of `s` that satisfy `p`, in their order in `s`. */
  function Filter<T>(s: seq<T>, p: T -> bool): (r: seq<T>)
    ensures |r| <= |s|
    ensures forall i :: 0 <= i < |r| ==> p(r[i])
    decreases |s|
  {
    if s == [] then [] else Filter(s[..|s| - 1], p) + (if p(s[|s| - 1]) then [s[|s| - 1]] else [])
  }

  /** Filtering keeps every occurrence of a satisfying element and drops every other one. */
  lemma {:induction false} FilterCount<T>(s: seq<T>, p: T -> bool, x: T)
    ensures multiset(Filter(s, p))[x] == if p(x) then multiset(s)[x] else 0
    decreases |s|
  {
    if s != [] {
      FilterCount(s[..|s| - 1], p, x);
      assert s == s[..|s| - 1] + [s[|s| - 1]];
    }
  }

  lemma {:induction false} FilterAppend<T>(s: seq<T>, x: T, p: T -> bool)
    ensures Filter(s + [x], p) == Filter(s, p) + (if p(x) then [x] else [])
  {
    assert (s + [x])[..|s|] == s;
  }

  /** Two tests that agree on every element of `s` keep the same elements. */
  lemma {:induction false} FilterSameTest<T>(s: seq<T>, p: T -> bool, q: T -> bool)
    requires forall i :: 0 <= i < |s| ==> p(s[i]) == q(s[i])
    ensures Filter(s, p) == Filter(s, q)
    decreases |s|
  {
    if s != [] {
      FilterSameTest(s[..|s| - 1], p, q);
    }
  }

  /** Filtering twice is filtering by both tests. */
  lemma {:induction false} FilterFilter<T>(s: seq<T>, p: T -> bool, q: T -> bool, both: T -> bool)
    requires forall x :: both(x) == (p(x) && q(x))
    ensures Filter(Filter(s, p), q) == Filter(s, both)
    decreases |s|
  {
    if s != [] {
      var init, last := s[..|s| - 1], s[|s| - 1];
      FilterFilter(init, p, q, both);
      assert both(last) == (p(last) && q(last));
      if p(last) {
        assert Filter(s, p) == Filter(init, p) + [last];
        FilterAppend(Filter(init, p), last, q);
      } else {
        assert Filter(s, p) == Filter(init, p);
      }
    }
  }

  // ---------------------------------------------------------------------------
  // Array.prototype.sort with a numeric key (stable, as ECMAScript requires)

  predicate SortedBy<T>(s: seq<T>, key: T -> int) {
    forall i, j :: 0 <= i < j < |s| ==> key(s[i]) <= key(s[j])
  }

  /** Inserts `x` after every element whose key is at most `x`'s, scanning from the right. */
  function InsertBy<T>(x: T, s: seq<T>, key: T -> int): seq<T>
    decreases |s|
  {
    if s == [] then [x]
    else if key(s[|s| - 1]) <= key(x) then s + [x]
    else InsertBy(x, s[..|s| - 1], key) + [s[|s| - 1]]
  }

  /** The stable sort by `key`, as insertion of each element in turn. */
  function SortBy<T>(s: seq<T>, key: T -> int): seq<T>
    decreases |s|
  {
    if s == [] then [] else InsertBy(s[|s| - 1], SortBy(s[..|s| - 1], key), key)
  }

  /** The test "has key `k`". */
  function KeyIs<T>(key: T -> int, k: int): T -> bool {
    x => key(x) == k
  }

  /** A non-empty sequence is its elements before the last, then the last. */
  lemma Snoc<T>(s: seq<T>)
    requires s != []
    ensures s == s[..|s| - 1] + [s[|s| - 1]]
  {
    assert s[..|s| - 1] + [s[|s| - 1]] == s;
  }

  /** A sequence holds its last element and the elements before it. */
  lemma SnocMultiset<T>(s: seq<T>)
    requires s != []
    ensures multiset(s) == multiset(s[..|s| - 1]) + multiset{s[|s| - 1]}
  {
    assert s == s[..|s| - 1] + [s[|s| - 1]];
  }

  lemma {:induction false} InsertByPermutes<T>(x: T, s: seq<T>, key: T -> int)
    ensures multiset(InsertBy(x, s, key)) == multiset(s) + multiset{x}
    decreases |s|
  {
    if s != [] {
      var init, last := s[..|s| - 1], s[|s| - 1];
      assert s == init + [last];
      if key(last) > key(x) {
        InsertByPermutes(x, init, key);
      }
    }
  }

  /** A bound on every key survives insertion of an element under the bound. */
  lemma {:induction false} InsertByBounded<T>(x: T, s: seq<T>, key: T -> int, b: int)
    requires forall i :: 0 <= i < |s| ==> key(s[i]) <= b
    requires key(x) <= b
    ensures forall i :: 0 <= i < |InsertBy(x, s, key)| ==> key(InsertBy(x, s, key)[i]) <= b
    decreases |s|
  {
    if s != [] && key(s[|s| - 1]) > key(x) {
      InsertByBounded(x, s[..|s| - 1], key, b);
    }
  }

  lemma {:induction false} InsertBySorted<T>(x: T, s: seq<T>, key: T -> int)
    requires SortedBy(s, key)
    ensures SortedBy(InsertBy(x, s, key), key)
    decreases |s|
  {
    if s != [] {
      var init, last := s[..|s| - 1], s[|s| - 1];
      if key(last) > key(x) {
        InsertBySorted(x, init, key);
        InsertByBounded(x, init, key, key(last));
      }
    }
  }

  /** Sorting permutes the elements. */
  lemma {:induction false} SortByPermutes<T>(s: seq<T>, key: T -> int)
    ensures multiset(SortBy(s, key)) == multiset(s)
    decreases |s|
  {
    if s != [] {
      var init, last := s[..|s| - 1], s[|s| - 1];
      var sortedInit := SortBy(init, key);
      assert SortBy(s, key) == InsertBy(last, sortedInit, key);
      SnocMultiset(s);
      SortByPermutes(init, key);
      InsertByPermutes(last, sortedInit, key);
    }
  }

  /** Sorting puts the elements in key order. */
  lemma {:induction false} SortBySorted<T>(s: seq<T>, key: T -> int)
    ensures SortedBy(SortBy(s, key), key)
    decreases |s|
  {
    if s != [] {
      var init, last := s[..|s| - 1], s[|s| - 1];
      assert SortBy(s, key) == InsertBy(last, SortBy(init, key), key);
      SortBySorted(init, key);
      InsertBySorted(last, SortBy(init, key), key);
    }
  }

  /** Sorting permutes the elements into key order. */
  lemma SortByFacts<T>(s: seq<T>, key: T -> int)
    ensures multiset(SortBy(s, key)) == multiset(s)
    ensures SortedBy(SortBy(s, key), key)
  {
    SortByPermutes(s, key);
    SortBySorted(s, key);
  }

  lemma {:induction false} InsertByKeepsKeyOrder<T>(x: T, s: seq<T>, key: T -> int, k: int)
    ensures Filter(InsertBy(x, s, key), KeyIs(key, k))
            == Filter(s, KeyIs(key, k)) + (if key(x) == k then [x] else [])
    decreases |s|
  {
    var p := KeyIs(key, k);
    if s == [] {
      FilterAppend([], x, p);
    } else {
      var init, last := s[..|s| - 1], s[|s| - 1];
      assert s == init + [last];
      if key(last) <= key(x) {
        assert InsertBy(x, s, key) == s + [x];
        FilterAppend(s, x, p);
      } else {
        assert InsertBy(x, s, key) == InsertBy(x, init, key) + [last];
        InsertByKeepsKeyOrder(x, init, key, k);
        FilterAppend(InsertBy(x, init, key), last, p);
        FilterAppend(init, last, p);
      }
    }
  }

  /** Stability: elements with the same key keep their relative order. */
  lemma {:induction false} SortByIsStable<T>(s: seq<T>, key: T -> int, k: int)
    ensures Filter(SortBy(s, key), KeyIs(key, k)) == Filter(s, KeyIs(key, k))
    decreases |s|
  {
    if s != [] {
      var init, last := s[..|s| - 1], s[|s| - 1];
      assert SortBy(s, key) == InsertBy(last, SortBy(init, key), key);
      Snoc(s);
      SortByIsStable(init, key, k);
      InsertByKeepsKeyOrder(last, SortBy(init, key), key, k);
      FilterAppend(init, last, KeyIs(key, k));
    }
  }

  /** Where the scan stops, `x` goes right after the prefix. */
  lemma InsertByStops<T>(x: T, s: seq<T>, key: T -> int, j: int)
    requires 0 <= j <= |s| && (j == 0 || key(s[j - 1]) <= key(x))
    ensures InsertBy(x, s[..j], key) == s[..j] + [x]
  {
  }

  /** Where the scan from the right stops: behind every larger key, after the last key that
      is not larger. */
  lemma {:induction false} InsertByAt<T>(x: T, s: seq<T>, key: T -> int, j: int)
    requires 0 <= j <= |s| && (j == 0 || key(s[j - 1]) <= key(x))
    requires forall k :: j <= k < |s| ==> key(s[k]) > key(x)
    ensures InsertBy(x, s, key) == s[..j] + [x] + s[j..]
    decreases |s|
  {
    if j == |s| {
      InsertByStops(x, s, key, j);
      assert s[..j] == s && s[j..] == [];
    } else {
      var init, last := s[..|s| - 1], s[|s| - 1];
      assert InsertBy(x, s, key) == InsertBy(x, init, key) + [last];
      InsertByAt(x, init, key, j);
      assert init[..j] == s[..j];
      assert init[j..] + [last] == s[j..];
    }
  }

  /** Sorts `a` in place by `key`: insertion sort, shifting larger keys one place right. */
  method SortInPlace<T>(a: array<T>, key: T -> int)
    modifies a
    ensures a[..] == SortBy(old(a[..]), key)
  {
    ghost var input := a[..];
    for i := 0 to a.Length
      invariant a[..i] == SortBy(input[..i], key)
      invariant forall k :: i <= k < a.Length ==> a[k] == input[k]
    {
      assert input[..i + 1][..i] == input[..i];
      InsertAt(a, i, key);
    }
    assert a[..] == a[..a.Length];
    assert input[..a.Length] == input;
  }

  /** Moves `a[i]` left past every larger key of the prefix `a[..i]`. */
  method InsertAt<T>(a: array<T>, i: int, key: T -> int)
    requires 0 <= i < a.Length
    modifies a
    ensures a[..i + 1] == InsertBy(old(a[i]), old(a[..i]), key)
    ensures forall k :: i < k < a.Length ==> a[k] == old(a[k])
  {
    var x := a[i];
    ghost var sorted := a[..i];
    var j := ShiftLarger(a, i, x, key, sorted);
    a[j] := x;
    ghost var placed := sorted[..j] + [x] + sorted[j..];
    assert |placed| == i + 1;
    forall k | 0 <= k <= i
      ensures a[k] == placed[k]
    {
      if k < j {
        assert placed[k] == sorted[k];
      } else if k > j {
        assert placed[k] == sorted[k - 1];
      }
    }
    assert a[..i + 1] == placed;
  }

  /** Shifts the entries of the sorted prefix `a[..i]` whose key is larger than `x`'s one
      place right and returns the gap where `x` belongs. */
  method ShiftLarger<T>(a: array<T>, i: int, x: T, key: T -> int, ghost sorted: seq<T>) returns (j: int)
    requires 0 <= i < a.Length && sorted == a[..i]
    modifies a
    ensures 0 <= j <= i
    ensures forall k :: 0 <= k < j ==> a[k] == sorted[k]
    ensures forall k :: j < k <= i ==> a[k] == sorted[k - 1]
    ensures forall k :: i < k < a.Length ==> a[k] == old(a[k])
    ensures InsertBy(x, sorted, key) == sorted[..j] + [x] + sorted[j..]
  {
    j := i;
    while j > 0 && key(a[j - 1]) > key(x)
      invariant 0 <= j <= i
      invariant forall k :: 0 <= k < j ==> a[k] == sorted[k]
      invariant forall k :: j < k <= i ==> a[k] == sorted[k - 1]
      invariant forall k :: i < k < a.Length ==> a[k] == old(a[k])
      invariant forall k :: j <= k < i ==> key(sorted[k]) > key(x)
    {
      a[j] := a[j - 1];
      j := j - 1;
    }
    InsertByAt(x, sorted, key, j);
  }

  /** A sorted copy of `s`, made by sorting an array copy in place. */
  method SortedCopy<T>(s: seq<T>, key: T -> int) returns (r: seq<T>)
    ensures r == SortBy(s, key)
  {
    var a := new T[|s|](i requires 0 <= i < |s| => s[i]);
    assert a[..] == s;
    SortInPlace(a, key);
    r := a[..];
  }

  // ---------------------------------------------------------------------------
  // Active and archived tasks

  predicate IsActive(t: Todo) { t.status != Finished }

  predicate IsArchived(t: Todo) { t.status == Finished }

  /** The tasks on the board: every task not yet finished, in list order. */
  function Active(todos: seq<Todo>): seq<Todo> { Filter(todos, IsActive) }

  /** The tasks in the archive: every finished task, in list order. */
  function Archived(todos: seq<Todo>): seq<Todo> { Filter(todos, IsArchived) }

  /** Every task is on the board or in the archive, never both. */
  lemma ActiveArchivedPartition(todos: seq<Todo>)
    ensures multiset(Active(todos)) + multiset(Archived(todos)) == multiset(todos)
    ensures |Active(todos)| + |Archived(todos)| == |todos|
    ensures forall t :: t in Active(todos) ==> t !in Archived(todos)
  {
    forall t ensures multiset(Active(todos))[t] + multiset(Archived(todos))[t] == multiset(todos)[t] {
      FilterCount(todos, IsActive, t);
      FilterCount(todos, IsArchived, t);
    }
    assert multiset(Active(todos)) + multiset(Archived(todos)) == multiset(todos);
    assert |multiset(Active(todos)) + multiset(Archived(todos))| == |multiset(todos)|;
    forall t | t in Active(todos) ensures t !in Archived(todos) {
      FilterCount(todos, IsArchived, t);
      assert t in multiset(Active(todos));
    }
  }

  // ---------------------------------------------------------------------------
  // The four priority columns

  /** The test "has priority `p`". */
  function OfPriority(p: Priority): Todo -> bool {
    (t: Todo) => t.priority == p
  }

  /** The board's columns, one per priority. */
  datatype Groups = Groups(urgent: seq<Todo>, high: seq<Todo>, medium: seq<Todo>, low: seq<Todo>)

  function Bucket(g: Groups, p: Priority): seq<Todo> {
    match p
    case Urgent => g.urgent
    case High => g.high
    case Medium => g.medium
    case Low => g.low
  }

  /** Number.MAX_SAFE_INTEGER, the sort key of a task with no deadline. */
  const MaxSafeInteger: int := 9_007_199_254_740_991

  /** Sorts by deadline instant; tasks without a deadline sort after every dated one. */
  function DeadlineKey(t: Todo): (k: int)
    ensures t.deadline.Some? ==> k == t.deadline.value && k < MaxSafeInteger
    ensures t.deadline.None? ==> k == MaxSafeInteger
  {
    match t.deadline
    case Some(ms) => ms
    case None => MaxSafeInteger
  }

  /** What a column shows: the active tasks of that priority, by deadline. */
  function Column(todos: seq<Todo>, p: Priority): seq<Todo> {
    SortBy(Filter(Active(todos), OfPriority(p)), DeadlineKey)
  }

  /** Groups the active tasks into columns, then sorts each column by deadline. */
  method GroupActive(active: seq<Todo>) returns (g: Groups)
    ensures forall p :: Bucket(g, p) == SortBy(Filter(active, OfPriority(p)), DeadlineKey)
  {
    var urgent, high, medium, low := [], [], [], [];
    for i := 0 to |active|
      invariant urgent == Filter(active[..i], OfPriority(Urgent))
      invariant high == Filter(active[..i], OfPriority(High))
      invariant medium == Filter(active[..i], OfPriority(Medium))
      invariant low == Filter(active[..i], OfPriority(Low))
    {
      var t := active[i];
      assert active[..i + 1] == active[..i] + [t];
      FilterAppend(active[..i], t, OfPriority(Urgent));
      FilterAppend(active[..i], t, OfPriority(High));
      FilterAppend(active[..i], t, OfPriority(Medium));
      FilterAppend(active[..i], t, OfPriority(Low));
      match t.priority
      case Urgent => urgent := urgent + [t];
      case High => high := high + [t];
      case Medium => medium := medium + [t];
      case Low => low := low + [t];
    }
    assert active[..|active|] == active;
    urgent := SortedCopy(urgent, DeadlineKey);
    high := SortedCopy(high, DeadlineKey);
    medium := SortedCopy(medium, DeadlineKey);
    low := SortedCopy(low, DeadlineKey);
    g := Groups(urgent, high, medium, low);
  }

  /** The board as the page computes it. */
  method BoardColumns(todos: seq<Todo>) returns (g: Groups)
    ensures forall p :: Bucket(g, p) == Column(todos, p)
  {
    g := GroupActive(Active(todos));
  }

  /** A column holds exactly the active tasks of its priority, each as often as in the list. */
  lemma ColumnContents(todos: seq<Todo>, p: Priority, t: Todo)
    ensures multiset(Column(todos, p))[t]
            == if t.priority == p && t.status != Finished then multiset(todos)[t] else 0
  {
    SortByFacts(Filter(Active(todos), OfPriority(p)), DeadlineKey);
    FilterCount(Active(todos), OfPriority(p), t);
    FilterCount(todos, IsActive, t);
  }

  /** The four columns together hold the board: each active task lands in exactly one column. */
  lemma ColumnsCoverActive(todos: seq<Todo>)
    ensures |Column(todos, Urgent)| + |Column(todos, High)| + |Column(todos, Medium)| + |Column(todos, Low)|
            == |Active(todos)|
  {
    var active := Active(todos);
    var u, h, m, l := Column(todos, Urgent), Column(todos, High), Column(todos, Medium), Column(todos, Low);
    forall t ensures (multiset(u) + multiset(h) + multiset(m) + multiset(l))[t] == multiset(active)[t] {
      ColumnContents(todos, Urgent, t);
      ColumnContents(todos, High, t);
      ColumnContents(todos, Medium, t);
      ColumnContents(todos, Low, t);
      FilterCount(todos, IsActive, t);
    }
    assert multiset(u) + multiset(h) + multiset(m) + multiset(l) == multiset(active);
    assert |multiset(u) + multiset(h) + multiset(m) + multiset(l)| == |multiset(active)|;
  }

  /** Within a column, earlier deadlines come first and undated tasks come last. */
  lemma ColumnOrder(todos: seq<Todo>, p: Priority)
    ensures forall i, j :: 0 <= i < j < |Column(todos, p)| ==>
      var a, b := Column(todos, p)[i], Column(todos, p)[j];
      (a.deadline.None? ==> b.deadline.None?) &&
      (a.deadline.Some? && b.deadline.Some? ==> a.deadline.value <= b.deadline.value)
  {
    SortByFacts(Filter(Active(todos), OfPriority(p)), DeadlineKey);
  }

  /** Tasks of a column with the same deadline key stay in list order. */
  lemma ColumnKeepsListOrder(todos: seq<Todo>, p: Priority, k: int)
    ensures Filter(Column(todos, p), KeyIs(DeadlineKey, k))
            == Filter(Filter(Active(todos), OfPriority(p)), KeyIs(DeadlineKey, k))
  {
    SortByIsStable(Filter(Active(todos), OfPriority(p)), DeadlineKey, k);
  }

  // ---------------------------------------------------------------------------
  // The archive, by priority

  /** Sorts by position in the priority list, Urgent first. */
  function RankKey(t: Todo): int { PriorityRank(t.priority) }

  /** Copies the archived tasks and sorts the copy by priority. */
  method ArchiveView(todos: seq<Todo>) returns (r: seq<Todo>)
    ensures r == SortBy(Archived(todos), RankKey)
  {
    r := SortedCopy(Archived(todos), RankKey);
  }

  /** The archive lists the finished tasks, most urgent first, list order within a priority. */
  lemma ArchiveViewOrder(todos: seq<Todo>, p: Priority)
    ensures multiset(SortBy(Archived(todos), RankKey)) == multiset(Archived(todos))
    ensures forall i, j :: 0 <= i < j < |SortBy(Archived(todos), RankKey)| ==>
      PriorityRank(SortBy(Archived(todos), RankKey)[i].priority)
        <= PriorityRank(SortBy(Archived(todos), RankKey)[j].priority)
    ensures Filter(SortBy(Archived(todos), RankKey), KeyIs(RankKey, PriorityRank(p)))
            == Filter(Archived(todos), KeyIs(RankKey, PriorityRank(p)))
  {
    SortByFacts(Archived(todos), RankKey);
    SortByIsStable(Archived(todos), RankKey, PriorityRank(p));
  }

  // ---------------------------------------------------------------------------
  // The counters above the board

  datatype Stats = Stats(total: nat, inProgress: nat, completed: nat, overdue: nat)

  predicate IsInProgress(t: Todo) { t.status == InProgress }

  /** The test "deadline already passed at `nowMs`". */
  function PastDue(nowMs: int): Todo -> bool {
    (t: Todo) => t.deadline.Some? && t.deadline.value < nowMs
  }

  /** Counts the board, the tasks in progress on it, the archive, and the overdue tasks on it. */
  function ComputeStats(todos: seq<Todo>, nowMs: int): (s: Stats)
    ensures s.total + s.completed == |todos|
    ensures s.inProgress <= s.total && s.overdue <= s.total
  {
    ActiveArchivedPartition(todos);
    Stats(
      |Active(todos)|,
      |Filter(Active(todos), IsInProgress)|,
      |Archived(todos)|,
      |Filter(Active(todos), PastDue(nowMs))|)
  }

  /** The test "the countdown on this task's card reads overdue". */
  function ShowsOverdue(nowMs: int): Todo -> bool {
    (t: Todo) => Text.EndsWith(FormatRelative(DeadlineSeconds(t.deadline, nowMs)), " overdue")
  }

  /** The overdue counter counts exactly the board cards whose countdown says "overdue",
      and every such card's timer is red. */
  lemma OverdueMatchesCards(todos: seq<Todo>, nowMs: Ms)
    ensures ComputeStats(todos, nowMs).overdue == |Filter(Active(todos), ShowsOverdue(nowMs))|
    ensures forall t :: t in Filter(Active(todos), ShowsOverdue(nowMs)) ==>
      TimerColor(DeadlineSeconds(t.deadline, nowMs)) == Red
  {
    var active := Active(todos);
    forall i | 0 <= i < |active| ensures PastDue(nowMs)(active[i]) == ShowsOverdue(nowMs)(active[i]) {
      var t := active[i];
      var secs := DeadlineSeconds(t.deadline, nowMs);
      if secs.Some? {
        assert PastDue(nowMs)(t) == (secs.value < 0);
      }
    }
    FilterSameTest(active, PastDue(nowMs), ShowsOverdue(nowMs));
  }

  /** Every task in progress is on the board. */
  lemma InProgressCount(todos: seq<Todo>, nowMs: int)
    ensures ComputeStats(todos, nowMs).inProgress == |Filter(todos, IsInProgress)|
  {
    FilterFilter(todos, IsActive, IsInProgress, IsInProgress);
  }
}
