/**
 * The `ls` command's rows (main.go, the "ls" case of main): one row per
 * task state of every allocation, stably sorted by job ID followed by task
 * name.
 */
module Listing {
  import opened Strings
  import opened Nomad
  import opened Sequences

  datatype Row = Row(
    allocationId: string,
    jobId: string,
    task: string,
    state: string,
    taskGroup: string,
    lastRestart: int)

  function RowOf(alloc: Allocation, task: string): Row
    requires task in alloc.taskStates
  {
    Row(alloc.id, alloc.jobId, task, alloc.taskStates[task].state, alloc.taskGroup, alloc.taskStates[task].lastRestart)
  }

  /** The sort key: the job ID and the task name, concatenated. */
  function Key(row: Row): string
  {
    row.jobId + row.task
  }

  /** Non-decreasing by key, stated on neighbours. */
  predicate Sorted(rows: seq<Row>)
  {
    forall p :: 0 < p < |rows| ==> !Less(Key(rows[p]), Key(rows[p - 1]))
  }

  /** The rows with a given key, in their order. */
  function Filter(rows: seq<Row>, key: string): seq<Row>
  {
    if rows == [] then []
    else (if Key(rows[0]) == key then [rows[0]] else []) + Filter(rows[1..], key)
  }

  /** Rows with equal keys appear in the same relative order in both. */
  ghost predicate SameKeyOrder(s: seq<Row>, t: seq<Row>)
  {
    forall key :: Filter(s, key) == Filter(t, key)
  }

  /** The rows of the tasks in `tasks` of one allocation. */
  function RowSet(alloc: Allocation, tasks: set<string>): set<Row>
  {
    set task | task in tasks && task in alloc.taskStates :: RowOf(alloc, task)
  }

  /** One row per (allocation, task state) pair of the list. */
  function AllRows(list: seq<Allocation>): multiset<Row>
  {
    if list == [] then multiset{}
    else
      var last := list[|list| - 1];
      AllRows(list[..|list| - 1]) + multiset(RowSet(last, last.taskStates.Keys))
  }

  /** The row of `alloc` whose key is `key`, when its task is one of `tasks`: an allocation has at most one. */
  function RowWithKey(alloc: Allocation, tasks: set<string>, key: string): seq<Row>
  {
    var n := |alloc.jobId|;
    if HasPrefix(key, alloc.jobId) && key[n..] in tasks && key[n..] in alloc.taskStates
    then [RowOf(alloc, key[n..])]
    else []
  }

  /** The rows with key `key`, in the order of the allocations in the list. */
  function KeyRows(list: seq<Allocation>, key: string): seq<Row>
  {
    if list == [] then []
    else
      var last := list[|list| - 1];
      KeyRows(list[..|list| - 1], key) + RowWithKey(last, last.taskStates.Keys, key)
  }

  lemma {:induction false} FilterAppend(a: seq<Row>, b: seq<Row>, key: string)
    ensures Filter(a + b, key) == Filter(a, key) + Filter(b, key)
  {
    if a != [] {
      assert (a + b)[0] == a[0] && (a + b)[1..] == a[1..] + b;
      FilterAppend(a[1..], b, key);
      ConcatAssoc(if Key(a[0]) == key then [a[0]] else [], Filter(a[1..], key), Filter(b, key));
    } else {
      assert a + b == b;
    }
  }

  lemma FilterHead(rows: seq<Row>)
    requires rows != []
    ensures Filter(rows, Key(rows[0])) != []
  {
  }

  /** Everything a filter keeps has that key and comes from the rows. */
  lemma {:induction false} FilterMember(rows: seq<Row>, key: string, x: Row)
    requires x in Filter(rows, key)
    ensures x in rows && Key(x) == key
  {
    if rows != [] && !(Key(rows[0]) == key && x == rows[0]) {
      FilterMember(rows[1..], key, x);
    }
  }

  /** A row of an allocation has key `key` exactly when the key is the job ID followed by the row's task. */
  lemma KeyOfRow(alloc: Allocation, task: string, key: string)
    requires task in alloc.taskStates
    ensures Key(RowOf(alloc, task)) == key
      <==> HasPrefix(key, alloc.jobId) && key[|alloc.jobId|..] == task
  {
    var j := alloc.jobId;
    if Key(RowOf(alloc, task)) == key {
      assert key[..|j|] == j && key[|j|..] == task;
    }
    if HasPrefix(key, j) && key[|j|..] == task {
      assert key == key[..|j|] + key[|j|..];
    }
  }

  /** Adding a task to those already listed adds its row to the one key it has. */
  lemma RowWithKeyAdd(alloc: Allocation, done: set<string>, task: string, key: string)
    requires task in alloc.taskStates && task !in done
    ensures RowWithKey(alloc, done + {task}, key) == RowWithKey(alloc, done, key) + Filter([RowOf(alloc, task)], key)
  {
    KeyOfRow(alloc, task, key);
    assert [RowOf(alloc, task)][1..] == [];
  }

  lemma RowSetAdd(alloc: Allocation, done: set<string>, task: string)
    requires task in alloc.taskStates && task !in done
    ensures multiset(RowSet(alloc, done + {task})) == multiset(RowSet(alloc, done)) + multiset{RowOf(alloc, task)}
  {
    var row := RowOf(alloc, task);
    assert RowSet(alloc, done + {task}) == RowSet(alloc, done) + {row};
    assert row !in RowSet(alloc, done);
  }

  /** One pass of the inner loop keeps its invariants. */
  lemma AddRowStep(before: seq<Row>, rows: seq<Row>, alloc: Allocation, done: set<string>, task: string)
    requires task in alloc.taskStates && task !in done
    requires multiset(rows) == multiset(before) + multiset(RowSet(alloc, done))
    requires forall key :: Filter(rows, key) == Filter(before, key) + RowWithKey(alloc, done, key)
    ensures multiset(rows + [RowOf(alloc, task)]) == multiset(before) + multiset(RowSet(alloc, done + {task}))
    ensures forall key :: Filter(rows + [RowOf(alloc, task)], key) == Filter(before, key) + RowWithKey(alloc, done + {task}, key)
  {
    var row := RowOf(alloc, task);
    RowSetAdd(alloc, done, task);
    forall key ensures Filter(rows + [row], key) == Filter(before, key) + RowWithKey(alloc, done + {task}, key) {
      FilterAppend(rows, [row], key);
      RowWithKeyAdd(alloc, done, task, key);
      ConcatAssoc(Filter(before, key), RowWithKey(alloc, done, key), Filter([row], key));
    }
  }

  /** Finishing one allocation's task states extends both specifications by that allocation. */
  lemma AllocationStep(list: seq<Allocation>, i: int, before: seq<Row>, rows: seq<Row>)
    requires 0 <= i < |list|
    requires multiset(before) == AllRows(list[..i])
    requires forall key :: Filter(before, key) == KeyRows(list[..i], key)
    requires multiset(rows) == multiset(before) + multiset(RowSet(list[i], list[i].taskStates.Keys))
    requires forall key :: Filter(rows, key) == Filter(before, key) + RowWithKey(list[i], list[i].taskStates.Keys, key)
    ensures multiset(rows) == AllRows(list[..i + 1])
    ensures forall key :: Filter(rows, key) == KeyRows(list[..i + 1], key)
  {
    assert list[..i + 1][..i] == list[..i] && list[..i + 1][i] == list[i];
  }

  /**
   * The inner loop of main.go:138-141: the rows of one allocation's task
   * states, appended to `rows`. The loop ranges over a Go map, whose order
   * is unspecified; the model lets it pick any remaining task at each step.
   */
  method AppendTaskRows(rows: seq<Row>, alloc: Allocation) returns (out: seq<Row>)
    ensures multiset(out) == multiset(rows) + multiset(RowSet(alloc, alloc.taskStates.Keys))
    ensures forall key :: Filter(out, key) == Filter(rows, key) + RowWithKey(alloc, alloc.taskStates.Keys, key)
  {
    out := rows;
    var remaining := alloc.taskStates.Keys;
    ghost var done: set<string> := {};
    while remaining != {}
      invariant remaining + done == alloc.taskStates.Keys && remaining !! done
      invariant multiset(out) == multiset(rows) + multiset(RowSet(alloc, done))
      invariant forall key :: Filter(out, key) == Filter(rows, key) + RowWithKey(alloc, done, key)
      decreases remaining
    {
      var task :| task in remaining;
      AddRowStep(rows, out, alloc, done, task);
      out := out + [RowOf(alloc, task)];
      remaining := remaining - {task};
      done := done + {task};
    }
  }

  /**
   * The nested loops of main.go:137-142. Whatever order the map range
   * takes, the result holds one row per (allocation, task state) pair, and
   * the rows with one key come in list order.
   */
  method BuildRows(list: seq<Allocation>) returns (rows: seq<Row>)
    ensures multiset(rows) == AllRows(list)
    ensures forall key :: Filter(rows, key) == KeyRows(list, key)
  {
    rows := [];
    for i := 0 to |list|
      invariant multiset(rows) == AllRows(list[..i])
      invariant forall key :: Filter(rows, key) == KeyRows(list[..i], key)
    {
      var next := AppendTaskRows(rows, list[i]);
      AllocationStep(list, i, rows, next);
      rows := next;
    }
    assert list[..|list|] == list;
  }

  /** Exchanges the neighbours at `j - 1` and `j`. */
  method Swap(a: array<Row>, j: int)
    requires 0 < j < a.Length
    modifies a
    ensures a[..] == old(a[..])[j - 1 := old(a[j])][j := old(a[j - 1])]
    ensures multiset(a[..]) == multiset(old(a[..]))
  {
    a[j - 1], a[j] := a[j], a[j - 1];
  }

  /** Exchanging neighbours with different keys keeps the relative order of every key. */
  lemma SwapKeepsKeyOrder(s: seq<Row>, j: int)
    requires 0 < j < |s| && Key(s[j - 1]) != Key(s[j])
    ensures SameKeyOrder(s[j - 1 := s[j]][j := s[j - 1]], s)
  {
    var t := s[j - 1 := s[j]][j := s[j - 1]];
    assert s == s[..j - 1] + [s[j - 1], s[j]] + s[j + 1..];
    assert t == s[..j - 1] + [s[j], s[j - 1]] + s[j + 1..];
    forall key ensures Filter(t, key) == Filter(s, key) {
      FilterAppend(s[..j - 1] + [s[j - 1], s[j]], s[j + 1..], key);
      FilterAppend(s[..j - 1], [s[j - 1], s[j]], key);
      FilterAppend(s[..j - 1] + [s[j], s[j - 1]], s[j + 1..], key);
      FilterAppend(s[..j - 1], [s[j], s[j - 1]], key);
      assert [s[j - 1], s[j]][1..] == [s[j]] && [s[j], s[j - 1]][1..] == [s[j - 1]];
    }
  }

  /**
   * The state of the inner insertion loop: the first `i + 1` rows are in
   * order except perhaps at the row being moved, at `j`, and its neighbours
   * on either side are in order with each other.
   */
  predicate Inserting(s: seq<Row>, i: int, j: int)
    requires 0 <= j <= i < |s|
  {
    && (forall p :: 0 < p <= i && p != j ==> !Less(Key(s[p]), Key(s[p - 1])))
    && (0 < j < i ==> !Less(Key(s[j + 1]), Key(s[j - 1])))
  }

  lemma InsertingStart(s: seq<Row>, i: int)
    requires 0 <= i < |s| && Sorted(s[..i])
    ensures Inserting(s, i, i)
  {
    forall p | 0 < p < i ensures !Less(Key(s[p]), Key(s[p - 1])) {
      assert s[..i][p] == s[p] && s[..i][p - 1] == s[p - 1];
    }
  }

  /** Moving the row left past a neighbour with a greater key keeps the loop's state and every key's order. */
  lemma InsertingSwap(s: seq<Row>, i: int, j: int)
    requires 0 < j <= i < |s| && Inserting(s, i, j) && Less(Key(s[j]), Key(s[j - 1]))
    ensures Inserting(s[j - 1 := s[j]][j := s[j - 1]], i, j - 1)
    ensures SameKeyOrder(s[j - 1 := s[j]][j := s[j - 1]], s)
  {
    LessAsymmetric(Key(s[j]), Key(s[j - 1]));
    LessIrreflexive(Key(s[j]));
    SwapKeepsKeyOrder(s, j);
  }

  lemma InsertingDone(s: seq<Row>, i: int, j: int)
    requires 0 <= j <= i < |s| && Inserting(s, i, j)
    requires j == 0 || !Less(Key(s[j]), Key(s[j - 1]))
    ensures Sorted(s[..i + 1])
  {
  }

  /**
   * `sort.SliceStable` with the key comparison of main.go:144-148, as an
   * insertion sort by neighbour exchanges that never passes an equal key:
   * the result is sorted, a permutation, and keeps every key's rows in
   * their original order.
   */
  method SortStable(a: array<Row>)
    modifies a
    ensures Sorted(a[..])
    ensures multiset(a[..]) == multiset(old(a[..]))
    ensures SameKeyOrder(a[..], old(a[..]))
  {
    for i := 0 to a.Length
      invariant Sorted(a[..i])
      invariant multiset(a[..]) == multiset(old(a[..]))
      invariant SameKeyOrder(a[..], old(a[..]))
    {
      var j := i;
      InsertingStart(a[..], i);
      while j > 0 && Less(Key(a[j]), Key(a[j - 1]))
        invariant 0 <= j <= i
        invariant Inserting(a[..], i, j)
        invariant multiset(a[..]) == multiset(old(a[..]))
        invariant SameKeyOrder(a[..], old(a[..]))
      {
        InsertingSwap(a[..], i, j);
        Swap(a, j);
        j := j - 1;
      }
      InsertingDone(a[..], i, j);
    }
    assert a[..a.Length] == a[..];
  }

  /** Sorted on neighbours is sorted on every pair. */
  lemma {:induction false} SortedAllPairs(rows: seq<Row>, p: int, q: int)
    requires Sorted(rows) && 0 <= p <= q < |rows|
    ensures !Less(Key(rows[q]), Key(rows[p]))
    decreases q - p
  {
    if p == q {
      LessIrreflexive(Key(rows[p]));
    } else {
      SortedAllPairs(rows, p, q - 1);
      NotLessTransitive(Key(rows[p]), Key(rows[q - 1]), Key(rows[q]));
    }
  }

  /**
   * A sorted sequence is determined by the relative order of each key's
   * rows: two sorted sequences that agree on it are equal.
   */
  lemma {:induction false} SortedUnique(s: seq<Row>, t: seq<Row>)
    requires Sorted(s) && Sorted(t) && SameKeyOrder(s, t)
    ensures s == t
    decreases |s|
  {
    if s == [] || t == [] {
      if s != [] {
        FilterHead(s);
      } else if t != [] {
        FilterHead(t);
      }
    } else {
      var k, k' := Key(s[0]), Key(t[0]);
      LessTotal(k, k');
      if Less(k, k') {
        assert s[0] in Filter(t, k);
        FilterMember(t, k, s[0]);
        var j :| 0 <= j < |t| && t[j] == s[0];
        SortedAllPairs(t, 0, j);
        assert false;
      }
      if Less(k', k) {
        assert t[0] in Filter(s, k');
        FilterMember(s, k', t[0]);
        var j :| 0 <= j < |s| && s[j] == t[0];
        SortedAllPairs(s, 0, j);
        assert false;
      }
      assert Filter(s, k) == [s[0]] + Filter(s[1..], k);
      assert Filter(t, k) == [t[0]] + Filter(t[1..], k);
      forall key ensures Filter(s[1..], key) == Filter(t[1..], key) {
        if key != k {
          assert Filter(s, key) == Filter(s[1..], key);
          assert Filter(t, key) == Filter(t[1..], key);
        } else {
          assert [s[0]] + Filter(s[1..], k) == [t[0]] + Filter(t[1..], k);
          assert Filter(s[1..], k) == ([s[0]] + Filter(s[1..], k))[1..];
        }
      }
      assert s[0] == t[0] by {
        assert Filter(s, k)[0] == s[0] && Filter(t, k)[0] == t[0];
      }
      SortedUnique(s[1..], t[1..]);
      assert s == [s[0]] + s[1..] && t == [t[0]] + t[1..];
    }
  }

  /**
   * The `ls` rows: every (allocation, task state) pair once, ordered
   * non-decreasingly by job ID then task, rows with equal keys in list order.
   */
  method Ls(list: seq<Allocation>) returns (rows: seq<Row>)
    ensures multiset(rows) == AllRows(list)
    ensures forall p, q :: 0 <= p < q < |rows| ==> !Less(Key(rows[q]), Key(rows[p]))
    ensures forall key :: Filter(rows, key) == KeyRows(list, key)
  {
    var built := BuildRows(list);
    var a := new Row[|built|](i requires 0 <= i < |built| => built[i]);
    assert a[..] == built;
    SortStable(a);
    rows := a[..];
    forall p, q | 0 <= p < q < |rows| ensures !Less(Key(rows[q]), Key(rows[p])) {
      SortedAllPairs(rows, p, q);
    }
  }

  /**
   * The order in which Go's map range visits the task states cannot change
   * the listing: any two row sequences meeting Ls's postconditions are equal.
   */
  lemma LsDeterministic(list: seq<Allocation>, rows1: seq<Row>, rows2: seq<Row>)
    requires Sorted(rows1) && forall key :: Filter(rows1, key) == KeyRows(list, key)
    requires Sorted(rows2) && forall key :: Filter(rows2, key) == KeyRows(list, key)
    ensures rows1 == rows2
  {
    SortedUnique(rows1, rows2);
  }
}
