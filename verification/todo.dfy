/**
  The TODO-items plugin of the feature-file agent: a list of titled items that can be
  created, completed, removed and listed. Titles are compared ignoring case, the clock
  is a parameter, and every operation returns the new list with the reply it prints.
 */
module TodoItems {
  import opened Wrappers
  import opened Text

  /** A TODO item; times are abstract clock readings. */
  datatype TodoItem = TodoItem(title: string, isCompleted: bool, createdAt: int, completedAt: Option<int>)

  /** The replies the plugin's functions return. */
  datatype Reply = AlreadyExists | Created | NotFound | AlreadyCompleted | MarkedCompleted | Removed

  /** The exact text of a reply about `title`. */
  function ReplyText(reply: Reply, title: string): string {
    match reply
    case AlreadyExists => "TODO item '" + title + "' already exists."
    case Created => "TODO item '" + title + "' created successfully."
    case NotFound => "TODO item '" + title + "' not found."
    case AlreadyCompleted => "TODO item '" + title + "' is already completed."
    case MarkedCompleted => "TODO item '" + title + "' marked as completed."
    case Removed => "TODO item '" + title + "' removed successfully."
  }

  /** The list after an operation, and the reply. */
  datatype Outcome = Outcome(items: seq<TodoItem>, reply: Reply)

  predicate Matches(item: TodoItem, title: string) {
    EqualsIgnoreCase(item.title, title)
  }

  predicate Present(items: seq<TodoItem>, title: string) {
    exists k :: 0 <= k < |items| && Matches(items[k], title)
  }

  /** No two items have titles that are equal ignoring case. */
  predicate Distinct(items: seq<TodoItem>) {
    forall i, j :: 0 <= i < j < |items| ==> !EqualsIgnoreCase(items[i].title, items[j].title)
  }

  /** `FirstOrDefault(item => item.Title.Equals(title, OrdinalIgnoreCase))`, as an index. */
  function FindItem(items: seq<TodoItem>, title: string): (r: Option<nat>)
    ensures r.Some? ==> r.value < |items| && Matches(items[r.value], title)
    ensures r.Some? ==> forall k :: 0 <= k < r.value ==> !Matches(items[k], title)
    ensures r.None? <==> !Present(items, title)
  {
    if |items| == 0 then None
    else if Matches(items[0], title) then Some(0)
    else
      var rest := FindItem(items[1..], title);
      assert forall k :: 1 <= k < |items| ==> items[k] == items[1..][k - 1];
      if rest.None? then None else Some(rest.value + 1)
  }

  // ===========================================================================
  // The operations
  // ===========================================================================

  /** `CreateTodoItemAsync`: appends a new pending item unless the title is taken. */
  function Create(items: seq<TodoItem>, title: string, now: int): (r: Outcome)
    ensures r.reply == AlreadyExists <==> Present(items, title)
    ensures r.reply == AlreadyExists ==> r.items == items
    ensures r.reply != AlreadyExists ==>
      r.reply == Created && r.items == items + [TodoItem(title, false, now, None)]
  {
    if FindItem(items, title).Some? then Outcome(items, AlreadyExists)
    else Outcome(items + [TodoItem(title, false, now, None)], Created)
  }

  /** `CompleteTodoItemAsync`: marks the first matching item completed at `now`. */
  function Complete(items: seq<TodoItem>, title: string, now: int): (r: Outcome)
    ensures r.reply == NotFound <==> !Present(items, title)
    ensures r.reply in {NotFound, AlreadyCompleted, MarkedCompleted}
    ensures r.reply != MarkedCompleted ==> r.items == items
    ensures |r.items| == |items|
    ensures forall k :: 0 <= k < |items| ==>
      r.items[k].title == items[k].title && r.items[k].createdAt == items[k].createdAt
    ensures r.reply == MarkedCompleted ==>
      var i := FindItem(items, title).value;
      && !items[i].isCompleted
      && r.items[i].isCompleted && r.items[i].completedAt == Some(now)
      && (forall k :: 0 <= k < |items| && k != i ==> r.items[k] == items[k])
    ensures r.reply == AlreadyCompleted ==> items[FindItem(items, title).value].isCompleted
  {
    var found := FindItem(items, title);
    if found.None? then Outcome(items, NotFound)
    else if items[found.value].isCompleted then Outcome(items, AlreadyCompleted)
    else
      var item := items[found.value];
      Outcome(items[found.value := item.(isCompleted := true, completedAt := Some(now))], MarkedCompleted)
  }

  /** `RemoveTodoItemAsync`: drops the first matching item. */
  function Remove(items: seq<TodoItem>, title: string): (r: Outcome)
    ensures r.reply == NotFound <==> !Present(items, title)
    ensures r.reply in {NotFound, Removed}
    ensures r.reply == NotFound ==> r.items == items
    ensures r.reply == Removed ==>
      var i := FindItem(items, title).value;
      r.items == items[..i] + items[i + 1..]
  {
    var found := FindItem(items, title);
    if found.None? then Outcome(items, NotFound)
    else Outcome(items[..found.value] + items[found.value + 1..], Removed)
  }

  // ===========================================================================
  // Properties of the operations
  // ===========================================================================

  /** No operation introduces two items whose titles are equal ignoring case. */
  lemma {:induction false} CreateKeepsDistinct(items: seq<TodoItem>, title: string, now: int)
    requires Distinct(items)
    ensures Distinct(Create(items, title, now).items)
  {
    var r := Create(items, title, now).items;
    if Create(items, title, now).reply == Created {
      forall i, j | 0 <= i < j < |r| ensures !EqualsIgnoreCase(r[i].title, r[j].title) {
        if j == |items| {
          assert !Matches(items[i], title);
        }
      }
    }
  }

  lemma {:induction false} CompleteKeepsDistinct(items: seq<TodoItem>, title: string, now: int)
    requires Distinct(items)
    ensures Distinct(Complete(items, title, now).items)
  {
    var r := Complete(items, title, now).items;
    forall i, j | 0 <= i < j < |r| ensures !EqualsIgnoreCase(r[i].title, r[j].title) {
      assert r[i].title == items[i].title && r[j].title == items[j].title;
    }
  }

  lemma {:induction false} RemoveKeepsDistinct(items: seq<TodoItem>, title: string)
    requires Distinct(items)
    ensures Distinct(Remove(items, title).items)
  {
    var o := Remove(items, title);
    if o.reply == Removed {
      var i := FindItem(items, title).value;
      var r := o.items;
      forall a, b | 0 <= a < b < |r| ensures !EqualsIgnoreCase(r[a].title, r[b].title) {
        DeleteAt(items, i, a);
        DeleteAt(items, i, b);
      }
    }
  }

  /** Position `a` of the list without item `i` holds the item after the gap's shift. */
  lemma DeleteAt(items: seq<TodoItem>, i: nat, a: nat)
    requires i < |items| && a < |items| - 1
    ensures (items[..i] + items[i + 1..])[a] == items[if a < i then a else a + 1]
  {
  }

  /** Every completed item that is still in the list (by title) is still completed. */
  predicate KeepsCompleted(before: seq<TodoItem>, after: seq<TodoItem>) {
    forall i, j ::
      (0 <= i < |before| && 0 <= j < |after| && before[i].isCompleted
       && EqualsIgnoreCase(before[i].title, after[j].title)) ==> after[j].isCompleted
  }

  /** Completion is one way: no operation turns a completed item back into a pending one. */
  lemma {:induction false} CompletionIsOneWay(items: seq<TodoItem>, title: string, now: int)
    requires Distinct(items)
    ensures KeepsCompleted(items, Create(items, title, now).items)
    ensures KeepsCompleted(items, Complete(items, title, now).items)
    ensures KeepsCompleted(items, Remove(items, title).items)
  {
    CreateKeepsCompleted(items, title, now);
    CompleteKeepsCompleted(items, title, now);
    RemoveKeepsCompleted(items, title);
  }

  lemma {:induction false} CreateKeepsCompleted(items: seq<TodoItem>, title: string, now: int)
    requires Distinct(items)
    ensures KeepsCompleted(items, Create(items, title, now).items)
  {
    var o := Create(items, title, now);
    if o.reply == Created {
      assert forall k :: 0 <= k < |items| ==> !Matches(items[k], title);
      forall i, j | 0 <= i < |items| && 0 <= j < |o.items| && items[i].isCompleted
        && EqualsIgnoreCase(items[i].title, o.items[j].title)
        ensures o.items[j].isCompleted
      {
        if j < |items| {
          assert o.items[j] == items[j];
        }
      }
    }
  }

  lemma {:induction false} CompleteKeepsCompleted(items: seq<TodoItem>, title: string, now: int)
    requires Distinct(items)
    ensures KeepsCompleted(items, Complete(items, title, now).items)
  {
    var r := Complete(items, title, now).items;
    forall i, j | 0 <= i < |items| && 0 <= j < |r| && items[i].isCompleted
      && EqualsIgnoreCase(items[i].title, r[j].title)
      ensures r[j].isCompleted
    {
      assert r[j].title == items[j].title;
    }
  }

  lemma {:induction false} RemoveKeepsCompleted(items: seq<TodoItem>, title: string)
    requires Distinct(items)
    ensures KeepsCompleted(items, Remove(items, title).items)
  {
    var o := Remove(items, title);
    if o.reply == Removed {
      var f := FindItem(items, title).value;
      forall i, j | 0 <= i < |items| && 0 <= j < |o.items| && items[i].isCompleted
        && EqualsIgnoreCase(items[i].title, o.items[j].title)
        ensures o.items[j].isCompleted
      {
        DeleteAt(items, f, j);
      }
    }
  }

  /** Creating a title that is taken changes nothing, so creating twice is creating once. */
  lemma {:induction false} CreateIdempotent(items: seq<TodoItem>, title: string, now: int, later: int)
    ensures var once := Create(items, title, now);
      var twice := Create(once.items, title, later);
      twice.reply == AlreadyExists && twice.items == once.items
  {
    var once := Create(items, title, now);
    if once.reply == Created {
      assert Matches(once.items[|items|], title);
    }
  }

  /** Removing a title just created gives back the list it was created in. */
  lemma {:induction false} CreateThenRemove(items: seq<TodoItem>, title: string, now: int)
    requires !Present(items, title)
    ensures var created := Create(items, title, now);
      created.reply == Created && Remove(created.items, title) == Outcome(items, Removed)
  {
    var r := Create(items, title, now).items;
    assert Matches(r[|items|], title);
    assert forall k :: 0 <= k < |items| ==> r[k] == items[k];
    assert FindItem(r, title) == Some(|items|);
    assert r[..|items|] == items;
  }

  /** A completed item stays completed: completing it again is refused and changes nothing. */
  lemma {:induction false} CompleteTwice(items: seq<TodoItem>, title: string, now: int, later: int)
    requires Present(items, title)
    ensures var once := Complete(items, title, now);
      var twice := Complete(once.items, title, later);
      twice.reply == AlreadyCompleted && twice.items == once.items
  {
    var once := Complete(items, title, now);
    var i := FindItem(items, title).value;
    assert FindItem(once.items, title) == Some(i) by {
      assert forall k :: 0 <= k <= i ==> Matches(once.items[k], title) == Matches(items[k], title);
    }
  }

  // ===========================================================================
  // ListTodoItemsAsync
  // ===========================================================================

  /** The items with the given completion state, in list order. */
  function Filter(items: seq<TodoItem>, completed: bool): (r: seq<TodoItem>)
    ensures |r| <= |items|
    ensures forall k :: 0 <= k < |r| ==> r[k].isCompleted == completed
  {
    if |items| == 0 then []
    else if items[0].isCompleted == completed then [items[0]] + Filter(items[1..], completed)
    else Filter(items[1..], completed)
  }

  /** Pending and completed items together are exactly the items. */
  lemma {:induction false} FilterPartition(items: seq<TodoItem>)
    ensures |Filter(items, false)| + |Filter(items, true)| == |items|
    ensures multiset(Filter(items, false) + Filter(items, true)) == multiset(items)
  {
    if |items| > 0 {
      FilterPartition(items[1..]);
      assert items == [items[0]] + items[1..];
    }
  }

  /** The filter of one item keeps it exactly when it has the requested state. */
  lemma {:induction false} FilterSingle(x: TodoItem, completed: bool)
    ensures Filter([x], completed) == if x.isCompleted == completed then [x] else []
  {
    assert [x][1..] == [];
  }

  /** Filtering distributes over concatenation, so each group keeps the stored order. */
  lemma {:induction false} FilterAppend(a: seq<TodoItem>, b: seq<TodoItem>, completed: bool)
    ensures Filter(a + b, completed) == Filter(a, completed) + Filter(b, completed)
    decreases |a|
  {
    if |a| == 0 {
      assert a + b == b;
    } else {
      assert (a + b)[0] == a[0];
      assert (a + b)[1..] == a[1..] + b;
      FilterAppend(a[1..], b, completed);
    }
  }

  /** An item is kept by the filter of its own state and by no other. */
  lemma {:induction false} FilterMembership(items: seq<TodoItem>, completed: bool, item: TodoItem)
    ensures item in Filter(items, completed) <==> item in items && item.isCompleted == completed
  {
    if |items| > 0 {
      FilterMembership(items[1..], completed, item);
      assert items == [items[0]] + items[1..];
    }
  }

  /** Renders one abstract clock reading as "yyyy-MM-dd HH:mm". */
  type Stamp = int -> string

  function PendingEntry(item: TodoItem, stamp: Stamp): string {
    "- " + item.title + " (Created: " + stamp(item.createdAt) + ")\n"
  }

  /** A missing completion time renders as nothing, as a null does in C# interpolation. */
  function CompletedEntry(item: TodoItem, stamp: Stamp): string {
    "- " + item.title + " (Completed: " + (if item.completedAt.Some? then stamp(item.completedAt.value) else "") + ")\n"
  }

  function Entries(items: seq<TodoItem>, stamp: Stamp, completed: bool): (r: string)
    ensures |items| > 0 ==> |r| > 0
  {
    if |items| == 0 then ""
    else
      var entry := if completed then CompletedEntry(items[0], stamp) else PendingEntry(items[0], stamp);
      entry + Entries(items[1..], stamp, completed)
  }

  /** A section: its header and entries, or nothing at all when it has no items. */
  function Section(header: string, items: seq<TodoItem>, stamp: Stamp, completed: bool): (r: string)
    ensures |items| == 0 <==> r == ""
    ensures |items| > 0 ==> r == header + Entries(items, stamp, completed)
  {
    if |items| == 0 then "" else header + Entries(items, stamp, completed)
  }

  const EmptyList: string := "No TODO items found."
  const ListHeader: string := "Current TODO items:\n"
  const PendingHeader: string := "\nPending:\n"
  const CompletedHeader: string := "\nCompleted:\n"

  /** `ListTodoItemsAsync`. */
  function List(items: seq<TodoItem>, stamp: Stamp): string {
    if |items| == 0 then EmptyList
    else
      var pending := Section(PendingHeader, Filter(items, false), stamp, false);
      var completed := Section(CompletedHeader, Filter(items, true), stamp, true);
      ListHeader + pending + completed
  }

  /**
    The listing: the fixed empty message exactly when there are no items; otherwise the
    header, then the pending section (absent when nothing is pending), then the completed
    section (absent when nothing is completed), which together cover every item once.
   */
  lemma {:induction false} ListShape(items: seq<TodoItem>, stamp: Stamp)
    ensures List(items, stamp) == EmptyList <==> |items| == 0
    ensures |items| > 0 ==> StartsWith(List(items, stamp), ListHeader)
    ensures |items| > 0 && (forall k :: 0 <= k < |items| ==> !items[k].isCompleted) ==>
      List(items, stamp) == ListHeader + PendingHeader + Entries(items, stamp, false)
    ensures |items| > 0 && (forall k :: 0 <= k < |items| ==> items[k].isCompleted) ==>
      List(items, stamp) == ListHeader + CompletedHeader + Entries(items, stamp, true)
    ensures |items| > 0 ==>
      List(items, stamp) == ListHeader + Section(PendingHeader, Filter(items, false), stamp, false)
                            + Section(CompletedHeader, Filter(items, true), stamp, true)
  {
    if |items| > 0 {
      ListHeaderFirst(items, stamp);
      ListGroups(items, stamp);
      ListOneState(items, stamp, false);
      ListOneState(items, stamp, true);
    }
  }

  /** A non-empty listing starts with the header, so it is never the empty message. */
  lemma {:induction false} ListHeaderFirst(items: seq<TodoItem>, stamp: Stamp)
    requires |items| > 0
    ensures StartsWith(List(items, stamp), ListHeader)
    ensures List(items, stamp) != EmptyList
  {
    var r := List(items, stamp);
    assert r[..|ListHeader|] == ListHeader;
    assert r != EmptyList by {
      assert |EmptyList| < |ListHeader| || r[0] != EmptyList[0];
    }
  }

  /** A non-empty listing whose items all share one state has only that state's section. */
  lemma {:induction false} ListOneState(items: seq<TodoItem>, stamp: Stamp, completed: bool)
    requires |items| > 0
    ensures (forall k :: 0 <= k < |items| ==> items[k].isCompleted == completed) ==>
      List(items, stamp) == ListHeader + (if completed then CompletedHeader else PendingHeader) + Entries(items, stamp, completed)
  {
    if forall k :: 0 <= k < |items| ==> items[k].isCompleted == completed {
      FilterAll(items, completed);
      ListGroups(items, stamp);
    }
  }

  /**
    A list of pending items followed by completed items prints the pending ones, in order,
    under the pending header, then the completed ones, in order, under the completed header.
   */
  lemma {:induction false} ListMixed(pending: seq<TodoItem>, completed: seq<TodoItem>, stamp: Stamp)
    requires |pending| > 0 && |completed| > 0
    requires forall k :: 0 <= k < |pending| ==> !pending[k].isCompleted
    requires forall k :: 0 <= k < |completed| ==> completed[k].isCompleted
    ensures List(pending + completed, stamp) ==
      ListHeader + PendingHeader + Entries(pending, stamp, false)
        + CompletedHeader + Entries(completed, stamp, true)
  {
    var items := pending + completed;
    FilterAppend(pending, completed, false);
    FilterAppend(pending, completed, true);
    FilterAll(pending, false);
    FilterAll(completed, true);
    assert Filter(items, false) == pending && Filter(items, true) == completed;
    ListGroups(items, stamp);
    Regroup(ListHeader, PendingHeader, Entries(pending, stamp, false), CompletedHeader, Entries(completed, stamp, true));
  }

  lemma Regroup<T>(a: seq<T>, b: seq<T>, c: seq<T>, d: seq<T>, e: seq<T>)
    ensures a + (b + c) + (d + e) == a + b + c + d + e
  {
  }

  /** A non-empty listing is the header followed by the two sections. */
  lemma {:induction false} ListGroups(items: seq<TodoItem>, stamp: Stamp)
    requires |items| > 0
    ensures List(items, stamp) == ListHeader + Section(PendingHeader, Filter(items, false), stamp, false)
                                  + Section(CompletedHeader, Filter(items, true), stamp, true)
  {
  }

  /** A completed item stored before a pending one is still printed after it. */
  lemma {:induction false} ListPendingFirst(done: TodoItem, open: TodoItem, stamp: Stamp)
    requires done.isCompleted && !open.isCompleted
    ensures List([done, open], stamp) ==
      ListHeader + PendingHeader + PendingEntry(open, stamp)
        + CompletedHeader + CompletedEntry(done, stamp)
  {
    FilterAppend([done], [open], false);
    FilterAppend([done], [open], true);
    FilterSingle(done, false);
    FilterSingle(done, true);
    FilterSingle(open, false);
    FilterSingle(open, true);
    assert [done] + [open] == [done, open];
    assert Filter([done, open], false) == [open];
    assert Filter([done, open], true) == [done];
    assert [open][1..] == [] && [done][1..] == [];
    assert Entries([open], stamp, false) == PendingEntry(open, stamp);
    assert Entries([done], stamp, true) == CompletedEntry(done, stamp);
  }

  /** When every item has one state, its filter keeps all and the other keeps none. */
  lemma {:induction false} FilterAll(items: seq<TodoItem>, completed: bool)
    ensures (forall k :: 0 <= k < |items| ==> items[k].isCompleted == completed) ==>
      Filter(items, completed) == items && Filter(items, !completed) == []
  {
    if |items| > 0 {
      FilterAll(items[1..], completed);
      if forall k :: 0 <= k < |items| ==> items[k].isCompleted == completed {
        assert forall k :: 0 <= k < |items[1..]| ==> items[1..][k] == items[k + 1];
        assert items == [items[0]] + items[1..];
      }
    }
  }
}
