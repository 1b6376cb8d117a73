/** Time-scoped todo lists: each list has an owner, a name, a time range
    [startTime, endTime] (defaulting to the whole representable range), a set
    of items with completion flags and optional due dates, an auto-clear flag
    and a recurrence. Expired recurring lists are recreated for the next
    period, carrying over the uncompleted items with shifted due dates. */
module TodoList {
  import opened Common

  type UserId = string
  type ItemId = string

  datatype RecurrenceType = NoRecurrence | Daily | Weekly | Monthly

  datatype ListItem = ListItem(id: ItemId, completed: bool, dueDate: Option<Time>)

  datatype ListDoc = ListDoc(
    id: Id,
    name: string,
    owner: UserId,
    items: seq<ListItem>,
    startTime: Time,
    endTime: Time,
    autoClearCompleted: bool,
    recurrenceType: RecurrenceType)

  datatype TodoError =
    | EmptyName
    | DuplicateName
    | StartAfterEnd
    | RecurrenceNeedsTimes
    | ListNotFound
    | DuplicateItem
    | DueBeforeStart
    | DueAfterEnd
    | ItemNotFound
    | ProtectedList
    | ItemsOutOfRange(count: nat)
    | NameNotFound

  /** `new Date(0)`, the start of a list created without a start time. */
  const MIN_DATE: Time := 0
  /** `9999-12-31T23:59:59.999Z`, the end of a list created without an end time. */
  const MAX_DATE: Time := 253402300799999

  /** The names of the lists that deleteList refuses to delete. */
  const DefaultListNames: seq<string> := ["Daily To-dos", "Weekly To-dos", "Monthly To-dos"]

  /** hasDefaultDates: both times are the defaults, so the list counts as
      having no time range. */
  predicate HasDefaultDates(l: ListDoc) {
    l.startTime == MIN_DATE && l.endTime == MAX_DATE
  }

  // --------------------------------------------------------------- lookups

  /** Index of the first list with this id, or |lists| when there is none. */
  function ListIndex(lists: seq<ListDoc>, id: Id): (k: nat)
    ensures k <= |lists|
    ensures k < |lists| ==> lists[k].id == id
    ensures forall j :: 0 <= j < k ==> lists[j].id != id
  {
    FirstIndex(lists, (l: ListDoc) => l.id == id)
  }

  /** Index of the first item with this id, or |items| when there is none. */
  function ItemIndex(items: seq<ListItem>, id: ItemId): (k: nat)
    ensures k <= |items|
    ensures k < |items| ==> items[k].id == id
    ensures forall j :: 0 <= j < k ==> items[j].id != id
  {
    FirstIndex(items, (it: ListItem) => it.id == id)
  }

  /** Index of the first list of `owner` named `name`, or |lists|. */
  function NamedIndex(lists: seq<ListDoc>, owner: UserId, name: string): (k: nat)
    ensures k <= |lists|
    ensures k < |lists| ==> lists[k].owner == owner && lists[k].name == name
    ensures forall j :: 0 <= j < k ==> !(lists[j].owner == owner && lists[j].name == name)
  {
    FirstIndex(lists, (l: ListDoc) => l.owner == owner && l.name == name)
  }

  predicate HasItem(items: seq<ListItem>, id: ItemId) {
    exists i :: 0 <= i < |items| && items[i].id == id
  }

  predicate HasListNamed(lists: seq<ListDoc>, owner: UserId, name: string) {
    exists i :: 0 <= i < |lists| && lists[i].owner == owner && lists[i].name == name
  }

  function DifferentListId(a: ListDoc, b: ListDoc): bool { a.id != b.id }
  function DifferentItemId(a: ListItem, b: ListItem): bool { a.id != b.id }

  /** Ids below the fresh-id counter and unique, item ids unique per list. */
  ghost predicate WellFormed(lists: seq<ListDoc>, nextId: Id) {
    && (forall i :: 0 <= i < |lists| ==> lists[i].id < nextId)
    && Pairwise(lists, DifferentListId)
    && (forall i :: 0 <= i < |lists| ==> Pairwise(lists[i].items, DifferentItemId))
  }

  /** With unique ids, looking a list up by its own id finds it. */
  lemma ListIndexOfMember(lists: seq<ListDoc>, k: nat)
    requires Pairwise(lists, DifferentListId) && k < |lists|
    ensures ListIndex(lists, lists[k].id) == k
  {
  }

  lemma ReplaceKeepsWellFormed(lists: seq<ListDoc>, nextId: Id, k: nat, l: ListDoc)
    requires WellFormed(lists, nextId) && k < |lists|
    requires l.id == lists[k].id && Pairwise(l.items, DifferentItemId)
    ensures WellFormed(lists[k := l], nextId)
  {
    var lists' := lists[k := l];
    forall i, j | 0 <= i < j < |lists'| ensures DifferentListId(lists'[i], lists'[j]) {
      assert DifferentListId(lists[i], lists[j]);
    }
  }

  lemma AppendKeepsWellFormed(lists: seq<ListDoc>, nextId: Id, l: ListDoc)
    requires WellFormed(lists, nextId) && l.id == nextId && Pairwise(l.items, DifferentItemId)
    ensures WellFormed(lists + [l], nextId + 1)
  {
    var lists' := lists + [l];
    forall i, j | 0 <= i < j < |lists'| ensures DifferentListId(lists'[i], lists'[j]) {
      if j < |lists| {
        assert DifferentListId(lists[i], lists[j]);
      }
    }
  }

  lemma FilterKeepsWellFormed(lists: seq<ListDoc>, nextId: Id, p: ListDoc -> bool)
    requires WellFormed(lists, nextId)
    ensures WellFormed(Filter(lists, p), nextId)
  {
    FilterPairwise(lists, p, DifferentListId);
  }

  // ------------------------------------------------------- item operations

  /** The items a clear keeps: the uncompleted ones, in their order. */
  function Uncompleted(items: seq<ListItem>): (r: seq<ListItem>)
    ensures |r| <= |items|
    ensures forall i :: 0 <= i < |r| ==> r[i] in items && !r[i].completed
    ensures forall i :: 0 <= i < |items| && !items[i].completed ==> items[i] in r
  {
    Filter(items, (it: ListItem) => !it.completed)
  }

  /** Clearing looks at items one at a time and keeps the order. */
  lemma UncompletedAppend(items: seq<ListItem>, x: ListItem)
    ensures Uncompleted(items + [x]) == Uncompleted(items) + (if x.completed then [] else [x])
  {
    FilterAppend(items, [x], (it: ListItem) => !it.completed);
    assert [x][1..] == [];
  }

  /** Clearing twice is clearing once. */
  lemma UncompletedIdempotent(items: seq<ListItem>)
    ensures Uncompleted(Uncompleted(items)) == Uncompleted(items)
  {
    FilterIdempotent(items, (it: ListItem) => !it.completed);
  }

  /** A list with nothing completed is left as it is. */
  lemma UncompletedOfOpenItems(items: seq<ListItem>)
    requires forall i :: 0 <= i < |items| ==> !items[i].completed
    ensures Uncompleted(items) == items
  {
    FilterKeepsAll(items, (it: ListItem) => !it.completed);
  }

  lemma UncompletedKeepsIdsUnique(items: seq<ListItem>)
    requires Pairwise(items, DifferentItemId)
    ensures Pairwise(Uncompleted(items), DifferentItemId)
  {
    FilterPairwise(items, (it: ListItem) => !it.completed, DifferentItemId);
  }

  predicate WithinRange(it: ListItem, start: Time, end: Time) {
    it.dueDate.Some? ==> start <= it.dueDate.value <= end
  }

  /** The items whose due date lies outside [start, end]. */
  function OutOfRange(items: seq<ListItem>, start: Time, end: Time): (r: seq<ListItem>)
    ensures forall i :: 0 <= i < |r| ==> r[i] in items && !WithinRange(r[i], start, end)
    ensures forall i :: 0 <= i < |items| && !WithinRange(items[i], start, end) ==> items[i] in r
  {
    Filter(items, (it: ListItem) => !WithinRange(it, start, end))
  }

  /** A due date moved by the shift between two list starts. */
  function Shifted(due: Option<Time>, shift: int): (r: Option<Time>)
    ensures r.Some? <==> due.Some?
    ensures r.Some? ==> r.value - due.value == shift
  {
    match due
    case None => None
    case Some(d) => Some(d + shift)
  }

  /** How an item reappears in the next period's list. */
  function Reopened(it: ListItem, shift: int): ListItem {
    ListItem(it.id, false, Shifted(it.dueDate, shift))
  }

  /** The items a recreated list starts with: the uncompleted ones, reopened
      and shifted. */
  function CarryOver(items: seq<ListItem>, shift: int): (r: seq<ListItem>)
    ensures |r| == |Uncompleted(items)|
    ensures forall i :: 0 <= i < |r| ==> r[i] == Reopened(Uncompleted(items)[i], shift)
  {
    var open := Uncompleted(items);
    seq(|open|, i requires 0 <= i < |open| => Reopened(open[i], shift))
  }

  /** Every carried item comes from an uncompleted item with the same id, is
      not completed, and has its due date moved by exactly the shift. */
  lemma CarriedItemsAreShiftedOpenItems(items: seq<ListItem>, shift: int, i: nat)
    requires i < |CarryOver(items, shift)|
    ensures var c := CarryOver(items, shift)[i];
      !c.completed &&
      exists j :: 0 <= j < |items| && !items[j].completed && items[j].id == c.id &&
        (c.dueDate.Some? <==> items[j].dueDate.Some?) &&
        (c.dueDate.Some? ==> c.dueDate.value == items[j].dueDate.value + shift)
  {
    var u := Uncompleted(items)[i];
    assert u in items;
    var j :| 0 <= j < |items| && items[j] == u;
  }

  /** Every uncompleted item is carried over. */
  lemma OpenItemsAreCarried(items: seq<ListItem>, shift: int, j: nat)
    requires j < |items| && !items[j].completed
    ensures Reopened(items[j], shift) in CarryOver(items, shift)
  {
    var open := Uncompleted(items);
    assert items[j] in open;
    var i :| 0 <= i < |open| && open[i] == items[j];
    assert CarryOver(items, shift)[i] == Reopened(items[j], shift);
  }

  /** With unique item ids, no completed item's id survives a recreation. */
  lemma CompletedItemsAreDropped(items: seq<ListItem>, shift: int, j: nat)
    requires Pairwise(items, DifferentItemId) && j < |items| && items[j].completed
    ensures forall i :: 0 <= i < |CarryOver(items, shift)| ==> CarryOver(items, shift)[i].id != items[j].id
  {
    forall i | 0 <= i < |CarryOver(items, shift)| ensures CarryOver(items, shift)[i].id != items[j].id {
      var u := Uncompleted(items)[i];
      assert u in items && !u.completed;
      var m :| 0 <= m < |items| && items[m] == u;
      if m < j {
        assert DifferentItemId(items[m], items[j]);
      } else if j < m {
        assert DifferentItemId(items[j], items[m]);
      }
    }
  }

  lemma CarryOverKeepsIdsUnique(items: seq<ListItem>, shift: int)
    requires Pairwise(items, DifferentItemId)
    ensures Pairwise(CarryOver(items, shift), DifferentItemId)
  {
    UncompletedKeepsIdsUnique(items);
    var open := Uncompleted(items);
    var r := CarryOver(items, shift);
    forall i, j | 0 <= i < j < |r| ensures DifferentItemId(r[i], r[j]) {
      assert DifferentItemId(open[i], open[j]);
    }
  }

  /** How far the due dates move when a list starting at `from` is recreated
      to start at `to`. */
  function PeriodShift(from: Time, to: Time): int {
    to - from
  }

  /** The list that recreateRecurringList inserts for the period starting at
      `nextStart`. */
  function Successor(l: ListDoc, nextStart: Time, id: Id): (s: ListDoc)
    ensures s.id == id && s.name == l.name && s.owner == l.owner
    ensures s.autoClearCompleted == l.autoClearCompleted && s.recurrenceType == l.recurrenceType
    ensures s.startTime == nextStart
    ensures s.endTime - s.startTime == l.endTime - l.startTime
    ensures s.items == CarryOver(l.items, nextStart - l.startTime)
  {
    ListDoc(id, l.name, l.owner, CarryOver(l.items, PeriodShift(l.startTime, nextStart)),
            nextStart, nextStart + (l.endTime - l.startTime), l.autoClearCompleted, l.recurrenceType)
  }

  /** Shifting the range and the due dates together keeps every carried item
      inside the new list's range. */
  lemma SuccessorKeepsItemsInRange(l: ListDoc, nextStart: Time, id: Id)
    requires forall j :: 0 <= j < |l.items| ==> WithinRange(l.items[j], l.startTime, l.endTime)
    ensures var s := Successor(l, nextStart, id);
      forall i :: 0 <= i < |s.items| ==> WithinRange(s.items[i], s.startTime, s.endTime)
  {
    var s := Successor(l, nextStart, id);
    forall i | 0 <= i < |s.items| ensures WithinRange(s.items[i], s.startTime, s.endTime) {
      CarriedItemsAreShiftedOpenItems(l.items, nextStart - l.startTime, i);
    }
  }

  /** What is carried over depends only on the uncompleted items. */
  lemma CarryOverIgnoresClearing(items: seq<ListItem>, shift: int)
    ensures CarryOver(Uncompleted(items), shift) == CarryOver(items, shift)
  {
    var a, b := CarryOver(Uncompleted(items), shift), CarryOver(items, shift);
    UncompletedIdempotent(items);
    forall i | 0 <= i < |a| ensures a[i] == b[i] {
      assert Uncompleted(Uncompleted(items))[i] == Uncompleted(items)[i];
    }
  }

  /** Clearing before recreating makes no difference to the successor. */
  lemma SuccessorIgnoresClearing(l: ListDoc, nextStart: Time, id: Id)
    ensures Successor(l.(items := Uncompleted(l.items)), nextStart, id) == Successor(l, nextStart, id)
  {
    CarryOverIgnoresClearing(l.items, PeriodShift(l.startTime, nextStart));
  }

  // ------------------------------------------------------------- creation

  /** The list document createList inserts: no items, and the default times
      for those not given. */
  function NewList(id: Id, owner: UserId, name: string, startTime: Option<Time>, endTime: Option<Time>,
                   autoClearCompleted: bool, recurrenceType: RecurrenceType): ListDoc
  {
    ListDoc(id, name, owner, [], startTime.GetOr(MIN_DATE), endTime.GetOr(MAX_DATE), autoClearCompleted, recurrenceType)
  }

  /** A list created without times has the default dates, and so does one
      created with exactly the default times: the two are indistinguishable. */
  lemma DefaultDatesAreAmbiguous(id: Id, owner: UserId, name: string, auto: bool, rec: RecurrenceType)
    ensures HasDefaultDates(NewList(id, owner, name, None, None, auto, rec))
    ensures NewList(id, owner, name, Some(MIN_DATE), Some(MAX_DATE), auto, rec) == NewList(id, owner, name, None, None, auto, rec)
  {
  }

  /** A list created with only one of the two times may end before it starts. */
  lemma OneSidedRangeMayBeEmpty(id: Id, owner: UserId, name: string)
    ensures var l := NewList(id, owner, name, None, Some(-1), false, NoRecurrence);
      l.startTime > l.endTime
  {
  }

  // -------------------------------------------------------------- queries

  /** The lists of `user` whose range contains `now`, both ends inclusive. */
  function ActiveLists(lists: seq<ListDoc>, user: UserId, now: Time): (r: seq<ListDoc>)
    ensures forall i :: 0 <= i < |r| ==> r[i] in lists && r[i].owner == user && r[i].startTime <= now <= r[i].endTime
    ensures forall i :: 0 <= i < |lists| && lists[i].owner == user && lists[i].startTime <= now <= lists[i].endTime ==> lists[i] in r
  {
    Filter(lists, (l: ListDoc) => l.owner == user && l.startTime <= now && now <= l.endTime)
  }

  /** A list with default dates is active at every time that can be stored. */
  lemma DefaultListsAlwaysActive(lists: seq<ListDoc>, user: UserId, now: Time, k: nat)
    requires k < |lists| && lists[k].owner == user && HasDefaultDates(lists[k])
    requires MIN_DATE <= now <= MAX_DATE
    ensures lists[k] in ActiveLists(lists, user, now)
  {
  }

  predicate IsExpiredRecurring(l: ListDoc, user: UserId, now: Time) {
    l.owner == user && l.recurrenceType != NoRecurrence && l.endTime < now
  }

  /** The lists processRecurringLists visits, in collection order. */
  function ExpiredRecurring(lists: seq<ListDoc>, user: UserId, now: Time): (r: seq<ListDoc>)
    ensures forall i :: 0 <= i < |r| ==> r[i] in lists && IsExpiredRecurring(r[i], user, now)
    ensures forall i :: 0 <= i < |lists| && IsExpiredRecurring(lists[i], user, now) ==> lists[i] in r
  {
    Filter(lists, (l: ListDoc) => IsExpiredRecurring(l, user, now))
  }

  /** What identifies a period's list to the successor check: owner, name and
      start time. */
  function Slot(l: ListDoc): (UserId, string, Time) {
    (l.owner, l.name, l.startTime)
  }

  function Slots(lists: seq<ListDoc>): (r: seq<(UserId, string, Time)>)
    ensures |r| == |lists|
    ensures forall i :: 0 <= i < |lists| ==> r[i] == Slot(lists[i])
  {
    seq(|lists|, i requires 0 <= i < |lists| => Slot(lists[i]))
  }

  ghost predicate DistinctSlots(lists: seq<ListDoc>) {
    forall i, j :: 0 <= i < j < |lists| ==> Slot(lists[i]) != Slot(lists[j])
  }

  /** The header of a list: everything but its items. */
  function Header(l: ListDoc): ListDoc {
    l.(items := [])
  }

  lemma SlotsOfItemChange(lists: seq<ListDoc>, k: nat, items: seq<ListItem>)
    requires k < |lists|
    ensures Slots(lists[k := lists[k].(items := items)]) == Slots(lists)
  {
  }

  lemma SlotsOfAppend(lists: seq<ListDoc>, l: ListDoc)
    ensures Slots(lists + [l]) == Slots(lists) + [Slot(l)]
  {
  }

  /** recreateRecurringList gives the successor the name of the list it
      replaces, so after one recreation the owner has two lists of that name. */
  lemma RecreationDuplicatesName(lists: seq<ListDoc>, k: nat, nextStart: Time, id: Id)
    requires k < |lists|
    ensures var after := lists + [Successor(lists[k], nextStart, id)];
      exists i, j :: 0 <= i < j < |after| && after[i].owner == after[j].owner && after[i].name == after[j].name
  {
    var after := lists + [Successor(lists[k], nextStart, id)];
    assert after[k].owner == after[|lists|].owner && after[k].name == after[|lists|].name;
  }

  // ---------------------------------------------------------- list update

  /** Another list of the same owner already has this name. */
  predicate NameTakenByOther(lists: seq<ListDoc>, l: ListDoc, name: string) {
    exists i :: 0 <= i < |lists| && lists[i].id != l.id && lists[i].owner == l.owner && lists[i].name == name
  }

  /** The first check of updateList that fails, in the source's order, or
      None when the update is accepted. Times are checked merged: a provided
      value, else the stored one. */
  function UpdateListError(lists: seq<ListDoc>, l: ListDoc, newName: Option<string>, newStartTime: Option<Time>,
                           newEndTime: Option<Time>, newRecurrenceType: Option<RecurrenceType>): Option<TodoError>
  {
    var start := newStartTime.GetOr(l.startTime);
    var end := newEndTime.GetOr(l.endTime);
    var outside := OutOfRange(l.items, start, end);
    if newName.Some? && newName.value != l.name && NameTakenByOther(lists, l, newName.value) then Some(DuplicateName)
    else if start > end then Some(StartAfterEnd)
    else if (start != MIN_DATE || end != MAX_DATE) && (newStartTime.Some? || newEndTime.Some?) && |outside| > 0
    then Some(ItemsOutOfRange(|outside|))
    else if newRecurrenceType.Some? && newRecurrenceType.value != NoRecurrence && start == MIN_DATE && end == MAX_DATE
    then Some(RecurrenceNeedsTimes)
    else None
  }

  /** The list with every provided field written and every other one kept. */
  function Updated(l: ListDoc, newName: Option<string>, newStartTime: Option<Time>, newEndTime: Option<Time>,
                   newAutoClearCompleted: Option<bool>, newRecurrenceType: Option<RecurrenceType>): ListDoc
  {
    l.(name := newName.GetOr(l.name),
       startTime := newStartTime.GetOr(l.startTime),
       endTime := newEndTime.GetOr(l.endTime),
       autoClearCompleted := newAutoClearCompleted.GetOr(l.autoClearCompleted),
       recurrenceType := newRecurrenceType.GetOr(l.recurrenceType))
  }

  /** An accepted update: the range is ordered, a new name is not another
      list's of the same owner, a recurring type is never left on default
      dates, and when times were given and the range is not the default one,
      every item lies inside it. Only the provided fields change. */
  lemma AcceptedUpdate(lists: seq<ListDoc>, l: ListDoc, newName: Option<string>, newStartTime: Option<Time>,
                       newEndTime: Option<Time>, newAuto: Option<bool>, newRec: Option<RecurrenceType>)
    requires UpdateListError(lists, l, newName, newStartTime, newEndTime, newRec).None?
    ensures var u := Updated(l, newName, newStartTime, newEndTime, newAuto, newRec);
      && u.startTime <= u.endTime
      && u.id == l.id && u.owner == l.owner && u.items == l.items
      && (newName.Some? && newName.value != l.name ==> !NameTakenByOther(lists, l, newName.value))
      && (newRec.Some? && newRec.value != NoRecurrence ==> !HasDefaultDates(u))
      && ((newStartTime.Some? || newEndTime.Some?) && !HasDefaultDates(u) ==>
            forall j :: 0 <= j < |u.items| ==> WithinRange(u.items[j], u.startTime, u.endTime))
      && (newName.None? ==> u.name == l.name)
      && (newStartTime.None? ==> u.startTime == l.startTime)
      && (newEndTime.None? ==> u.endTime == l.endTime)
      && (newAuto.None? ==> u.autoClearCompleted == l.autoClearCompleted)
      && (newRec.None? ==> u.recurrenceType == l.recurrenceType)
  {
    var u := Updated(l, newName, newStartTime, newEndTime, newAuto, newRec);
    if (newStartTime.Some? || newEndTime.Some?) && !HasDefaultDates(u) {
      var outside := OutOfRange(l.items, u.startTime, u.endTime);
      assert |outside| == 0;
      forall j | 0 <= j < |u.items| ensures WithinRange(u.items[j], u.startTime, u.endTime) {
        assert u.items[j] !in outside;
      }
    }
  }

  // ------------------------------------------------- recurring-list pass

  /** How the pass may have changed the collection so far, relative to its
      state L0 at the start: no list removed, no header changed, items of a
      visited list cleared at most, and every list added belongs to the user
      and repeats no (owner, name, start) before it. */
  ghost predicate Evolves(L0: seq<ListDoc>, L: seq<ListDoc>, user: UserId, now: Time) {
    && |L0| <= |L|
    && (forall k :: 0 <= k < |L0| ==> Header(L[k]) == Header(L0[k]))
    && (forall k :: 0 <= k < |L0| ==>
          L[k].items == L0[k].items ||
          (L0[k].autoClearCompleted && IsExpiredRecurring(L0[k], user, now) &&
           L[k].items == Uncompleted(L0[k].items)))
    && (forall k :: |L0| <= k < |L| ==> L[k].owner == user && Slot(L[k]) !in Slots(L[..k]))
  }

  lemma EvolvesFromStart(L0: seq<ListDoc>, user: UserId, now: Time)
    ensures Evolves(L0, L0, user, now)
  {
  }

  /** Clearing a visited list that has auto-clear on keeps the relation. */
  lemma EvolvesByClearing(L0: seq<ListDoc>, L: seq<ListDoc>, user: UserId, now: Time, k: nat)
    requires Evolves(L0, L, user, now) && k < |L0|
    requires L0[k].autoClearCompleted && IsExpiredRecurring(L0[k], user, now)
    ensures var L' := L[k := L[k].(items := Uncompleted(L[k].items))];
      Evolves(L0, L', user, now) && Slots(L') == Slots(L)
  {
    var L' := L[k := L[k].(items := Uncompleted(L[k].items))];
    UncompletedIdempotent(L0[k].items);
    SlotsOfItemChange(L, k, Uncompleted(L[k].items));
    forall m | |L0| <= m < |L'| ensures L'[m].owner == user && Slot(L'[m]) !in Slots(L'[..m]) {
      assert Slots(L'[..m]) == Slots(L[..m]);
    }
  }

  /** Adding a list of the user whose (owner, name, start) is new keeps it. */
  lemma EvolvesByAdding(L0: seq<ListDoc>, L: seq<ListDoc>, user: UserId, now: Time, s: ListDoc)
    requires Evolves(L0, L, user, now)
    requires s.owner == user && Slot(s) !in Slots(L)
    ensures Evolves(L0, L + [s], user, now) && Slots(L + [s]) == Slots(L) + [Slot(s)]
  {
    var L' := L + [s];
    SlotsOfAppend(L, s);
    assert L'[..|L|] == L;
    forall m | |L0| <= m < |L| ensures Slot(L'[m]) !in Slots(L'[..m]) {
      assert L'[..m] == L[..m];
    }
  }

  /** What the pass adds never repeats an (owner, name, start). */
  lemma EvolvesKeepsSlotsDistinct(L0: seq<ListDoc>, L: seq<ListDoc>, user: UserId, now: Time)
    requires Evolves(L0, L, user, now) && DistinctSlots(L0)
    ensures DistinctSlots(L)
  {
    forall i, j | 0 <= i < j < |L| ensures Slot(L[i]) != Slot(L[j]) {
      if j < |L0| {
        assert Slot(L[i]) == Slot(L0[i]) by { assert Header(L[i]) == Header(L0[i]); }
        assert Slot(L[j]) == Slot(L0[j]) by { assert Header(L[j]) == Header(L0[j]); }
      } else {
        assert Slots(L[..j])[i] == Slot(L[i]);
      }
    }
  }

  /** A list that differs from `e` at most in its items, which are either
      e's or e's uncompleted ones, has the same successor as `e`. */
  lemma SameHeaderSameSuccessor(l: ListDoc, e: ListDoc, nextStart: Time, id: Id)
    requires Header(l) == Header(e)
    requires l.items == e.items || l.items == Uncompleted(e.items)
    ensures Successor(l, nextStart, id) == Successor(e, nextStart, id)
  {
    assert l == e.(items := l.items);
    SuccessorIgnoresClearing(e, nextStart, id);
  }

  // ------------------------------------------------------------ the concept

  class TodoListConcept {
    var lists: seq<ListDoc>
    var nextId: Id
    /** The start of the next period: addDays(start, 1), addWeeks(start, 1)
        or addMonths(start, 1) according to the recurrence. */
    const calendar: (RecurrenceType, Time) -> Time

    ghost predicate Valid()
      reads this
    {
      && WellFormed(lists, nextId)
      && (forall r, t :: calendar(r, t) > t)
    }

    constructor (calendar: (RecurrenceType, Time) -> Time)
      requires forall r, t :: calendar(r, t) > t
      ensures Valid() && lists == [] && this.calendar == calendar
    {
      this.calendar := calendar;
      lists, nextId := [], 0;
    }

    /** createList: the checks in the source's order, then one insert. */
    method CreateList(owner: UserId, name: string, startTime: Option<Time>, endTime: Option<Time>,
                      autoClearCompleted: bool, recurrenceType: RecurrenceType)
      returns (r: Result<Id, TodoError>)
      requires Valid()
      modifies this
      ensures Valid()
      ensures r == (
        if IsBlank(name) then Err(EmptyName)
        else if HasListNamed(old(lists), owner, name) then Err(DuplicateName)
        else if startTime.Some? && endTime.Some? && startTime.value > endTime.value then Err(StartAfterEnd)
        else if recurrenceType != NoRecurrence && (startTime.None? || endTime.None?) then Err(RecurrenceNeedsTimes)
        else Ok(old(nextId)))
      ensures r.Err? ==> lists == old(lists) && nextId == old(nextId)
      ensures r.Ok? ==>
        lists == old(lists) + [NewList(r.value, owner, name, startTime, endTime, autoClearCompleted, recurrenceType)] &&
        nextId == old(nextId) + 1
    {
      if IsBlank(name) {
        return Err(EmptyName);
      }
      if exists i :: 0 <= i < |lists| && lists[i].owner == owner && lists[i].name == name {
        return Err(DuplicateName);
      }
      if startTime.Some? && endTime.Some? && startTime.value > endTime.value {
        return Err(StartAfterEnd);
      }
      if recurrenceType != NoRecurrence && (startTime.None? || endTime.None?) {
        return Err(RecurrenceNeedsTimes);
      }
      var l := NewList(nextId, owner, name, startTime, endTime, autoClearCompleted, recurrenceType);
      AppendKeepsWellFormed(lists, nextId, l);
      lists := lists + [l];
      r := Ok(nextId);
      nextId := nextId + 1;
    }

    /** addListItem: appends one uncompleted item when its id is new and its
        due date, if any, lies within the list's range. */
    method AddListItem(list: Id, item: ItemId, itemDueDate: Option<Time>) returns (r: Result<(), TodoError>)
      requires Valid()
      modifies this
      ensures Valid() && nextId == old(nextId)
      ensures var k := ListIndex(old(lists), list);
        if k == |old(lists)| then r == Err(ListNotFound) && lists == old(lists)
        else
          var l := old(lists)[k];
          r == (if HasItem(l.items, item) then Err(DuplicateItem)
                else if itemDueDate.Some? && itemDueDate.value < l.startTime then Err(DueBeforeStart)
                else if itemDueDate.Some? && itemDueDate.value > l.endTime then Err(DueAfterEnd)
                else Ok(())) &&
          lists == (if r.Err? then old(lists)
                    else old(lists)[k := l.(items := l.items + [ListItem(item, false, itemDueDate)])])
    {
      var k := ListIndex(lists, list);
      if k == |lists| {
        return Err(ListNotFound);
      }
      var l := lists[k];
      if exists i :: 0 <= i < |l.items| && l.items[i].id == item {
        return Err(DuplicateItem);
      }
      if itemDueDate.Some? {
        if itemDueDate.value < l.startTime {
          return Err(DueBeforeStart);
        }
        if itemDueDate.value > l.endTime {
          return Err(DueAfterEnd);
        }
      }
      var items := l.items + [ListItem(item, false, itemDueDate)];
      assert Pairwise(items, DifferentItemId) by {
        assert Pairwise(l.items, DifferentItemId);
        forall i, j | 0 <= i < j < |items| ensures DifferentItemId(items[i], items[j]) {
          if j < |l.items| {
            assert DifferentItemId(l.items[i], l.items[j]);
          }
        }
      }
      ReplaceKeepsWellFormed(lists, nextId, k, l.(items := items));
      lists := lists[k := l.(items := items)];
      r := Ok(());
    }

    /** removeListItem: pulls the item with that id, keeping the others in order. */
    method RemoveListItem(list: Id, item: ItemId) returns (r: Result<(), TodoError>)
      requires Valid()
      modifies this
      ensures Valid() && nextId == old(nextId)
      ensures var k := ListIndex(old(lists), list);
        if k == |old(lists)| then r == Err(ListNotFound) && lists == old(lists)
        else
          var l := old(lists)[k];
          if !HasItem(l.items, item) then r == Err(ItemNotFound) && lists == old(lists)
          else r == Ok(()) && lists == old(lists)[k := l.(items := Filter(l.items, (it: ListItem) => it.id != item))]
    {
      var k := ListIndex(lists, list);
      if k == |lists| {
        return Err(ListNotFound);
      }
      var l := lists[k];
      if !exists i :: 0 <= i < |l.items| && l.items[i].id == item {
        return Err(ItemNotFound);
      }
      var items := Filter(l.items, (it: ListItem) => it.id != item);
      FilterPairwise(l.items, (it: ListItem) => it.id != item, DifferentItemId);
      ReplaceKeepsWellFormed(lists, nextId, k, l.(items := items));
      lists := lists[k := l.(items := items)];
      r := Ok(());
    }

    /** deleteList: removes the list unless it is one of the default lists. */
    method DeleteList(list: Id) returns (r: Result<(), TodoError>)
      requires Valid()
      modifies this
      ensures Valid() && nextId == old(nextId)
      ensures var k := ListIndex(old(lists), list);
        if k == |old(lists)| then r == Err(ListNotFound) && lists == old(lists)
        else if old(lists)[k].name in DefaultListNames then r == Err(ProtectedList) && lists == old(lists)
        else r == Ok(()) && lists == Filter(old(lists), (l: ListDoc) => l.id != list)
    {
      var k := ListIndex(lists, list);
      if k == |lists| {
        return Err(ListNotFound);
      }
      if lists[k].name in DefaultListNames {
        return Err(ProtectedList);
      }
      FilterKeepsWellFormed(lists, nextId, (l: ListDoc) => l.id != list);
      lists := Filter(lists, (l: ListDoc) => l.id != list);
      r := Ok(());
    }

    /** markItemCompleted: sets the flag of the matched item and nothing else. */
    method MarkItemCompleted(list: Id, item: ItemId, completed: bool) returns (r: Result<(), TodoError>)
      requires Valid()
      modifies this
      ensures Valid() && nextId == old(nextId)
      ensures var k := ListIndex(old(lists), list);
        if k == |old(lists)| then r == Err(ListNotFound) && lists == old(lists)
        else
          var l := old(lists)[k];
          var j := ItemIndex(l.items, item);
          if j == |l.items| then r == Err(ItemNotFound) && lists == old(lists)
          else r == Ok(()) && lists == old(lists)[k := l.(items := l.items[j := l.items[j].(completed := completed)])]
    {
      var k := ListIndex(lists, list);
      if k == |lists| {
        return Err(ListNotFound);
      }
      var l := lists[k];
      var j := ItemIndex(l.items, item);
      if j == |l.items| {
        return Err(ItemNotFound);
      }
      var items := l.items[j := l.items[j].(completed := completed)];
      assert Pairwise(items, DifferentItemId) by {
        assert Pairwise(l.items, DifferentItemId);
        forall a, b | 0 <= a < b < |items| ensures DifferentItemId(items[a], items[b]) {
          assert DifferentItemId(l.items[a], l.items[b]);
        }
      }
      ReplaceKeepsWellFormed(lists, nextId, k, l.(items := items));
      lists := lists[k := l.(items := items)];
      r := Ok(());
    }

    /** clearCompletedItems: keeps exactly the uncompleted items. */
    method ClearCompletedItems(list: Id) returns (r: Result<(), TodoError>)
      requires Valid()
      modifies this
      ensures Valid() && nextId == old(nextId)
      ensures var k := ListIndex(old(lists), list);
        if k == |old(lists)| then r == Err(ListNotFound) && lists == old(lists)
        else r == Ok(()) && lists == old(lists)[k := old(lists)[k].(items := Uncompleted(old(lists)[k].items))]
    {
      var k := ListIndex(lists, list);
      if k == |lists| {
        return Err(ListNotFound);
      }
      var l := lists[k];
      UncompletedKeepsIdsUnique(l.items);
      ReplaceKeepsWellFormed(lists, nextId, k, l.(items := Uncompleted(l.items)));
      lists := lists[k := l.(items := Uncompleted(l.items))];
      r := Ok(());
    }

    /** updateList: validates every provided field against the merged values
        and writes them all, or reports the first error and writes nothing. */
    method UpdateList(list: Id, newName: Option<string>, newStartTime: Option<Time>, newEndTime: Option<Time>,
                      newAutoClearCompleted: Option<bool>, newRecurrenceType: Option<RecurrenceType>)
      returns (r: Result<Id, TodoError>)
      requires Valid()
      modifies this
      ensures Valid() && nextId == old(nextId)
      ensures var k := ListIndex(old(lists), list);
        if k == |old(lists)| then r == Err(ListNotFound) && lists == old(lists)
        else
          var l := old(lists)[k];
          match UpdateListError(old(lists), l, newName, newStartTime, newEndTime, newRecurrenceType)
          case Some(e) => r == Err(e) && lists == old(lists)
          case None =>
            r == Ok(list) && lists == old(lists)[k := Updated(l, newName, newStartTime, newEndTime, newAutoClearCompleted, newRecurrenceType)]
    {
      var k := ListIndex(lists, list);
      if k == |lists| {
        return Err(ListNotFound);
      }
      var l := lists[k];
      ghost var verdict := UpdateListError(lists, l, newName, newStartTime, newEndTime, newRecurrenceType);
      var update := l;
      if newName.Some? && newName.value != l.name {
        if exists i :: 0 <= i < |lists| && lists[i].id != list && lists[i].owner == l.owner && lists[i].name == newName.value {
          assert verdict == Some(DuplicateName);
          return Err(DuplicateName);
        }
        update := update.(name := newName.value);
      }
      var start := if newStartTime.Some? then newStartTime.value else l.startTime;
      var end := if newEndTime.Some? then newEndTime.value else l.endTime;
      update := update.(startTime := start, endTime := end);
      if start > end {
        assert verdict == Some(StartAfterEnd);
        return Err(StartAfterEnd);
      }
      if (start != MIN_DATE || end != MAX_DATE) && (newStartTime.Some? || newEndTime.Some?) {
        var outside := OutOfRange(l.items, start, end);
        if |outside| > 0 {
          assert verdict == Some(ItemsOutOfRange(|outside|));
          return Err(ItemsOutOfRange(|outside|));
        }
      }
      if newAutoClearCompleted.Some? {
        update := update.(autoClearCompleted := newAutoClearCompleted.value);
      }
      if newRecurrenceType.Some? {
        if newRecurrenceType.value != NoRecurrence && HasDefaultDates(l.(startTime := start, endTime := end)) {
          assert verdict == Some(RecurrenceNeedsTimes);
          return Err(RecurrenceNeedsTimes);
        }
        update := update.(recurrenceType := newRecurrenceType.value);
      }
      assert verdict == None;
      assert update == Updated(l, newName, newStartTime, newEndTime, newAutoClearCompleted, newRecurrenceType);
      WriteList(k, update);
      r := Ok(list);
    }

    /** The `$set` of one list document's header fields. */
    method WriteList(k: nat, l: ListDoc)
      requires Valid() && k < |lists| && l.id == lists[k].id && l.items == lists[k].items
      modifies this
      ensures Valid() && nextId == old(nextId)
      ensures lists == old(lists)[k := l]
    {
      ReplaceKeepsWellFormed(lists, nextId, k, l);
      lists := lists[k := l];
    }

    /** updateListSettings: the auto-clear flag and the recurrence, the latter
        refused on a list with default dates. */
    method UpdateListSettings(list: Id, autoClearCompleted: Option<bool>, recurrenceType: Option<RecurrenceType>)
      returns (r: Result<(), TodoError>)
      requires Valid()
      modifies this
      ensures Valid() && nextId == old(nextId)
      ensures var k := ListIndex(old(lists), list);
        if k == |old(lists)| then r == Err(ListNotFound) && lists == old(lists)
        else
          var l := old(lists)[k];
          if recurrenceType.Some? && recurrenceType.value != NoRecurrence && HasDefaultDates(l)
          then r == Err(RecurrenceNeedsTimes) && lists == old(lists)
          else r == Ok(()) && lists == old(lists)[k := l.(
            autoClearCompleted := autoClearCompleted.GetOr(l.autoClearCompleted),
            recurrenceType := recurrenceType.GetOr(l.recurrenceType))]
    {
      var k := ListIndex(lists, list);
      if k == |lists| {
        return Err(ListNotFound);
      }
      var l := lists[k];
      var update := l;
      if autoClearCompleted.Some? {
        update := update.(autoClearCompleted := autoClearCompleted.value);
      }
      if recurrenceType.Some? {
        if recurrenceType.value != NoRecurrence && HasDefaultDates(l) {
          return Err(RecurrenceNeedsTimes);
        }
        update := update.(recurrenceType := recurrenceType.value);
      }
      ReplaceKeepsWellFormed(lists, nextId, k, update);
      lists := lists[k := update];
      r := Ok(());
    }

    /** autoClearIfNeeded: clears the completed items when the flag is set and
        the list has ended; otherwise it does not fire. */
    method AutoClearIfNeeded(list: Id, now: Time) returns (r: Result<(), TodoError>)
      requires Valid()
      modifies this
      ensures Valid() && nextId == old(nextId)
      ensures var k := ListIndex(old(lists), list);
        if k == |old(lists)| then r == Err(ListNotFound) && lists == old(lists)
        else
          var l := old(lists)[k];
          r == Ok(()) &&
          lists == if l.autoClearCompleted && now > l.endTime
                   then old(lists)[k := l.(items := Uncompleted(l.items))]
                   else old(lists)
    {
      var k := ListIndex(lists, list);
      if k == |lists| {
        return Err(ListNotFound);
      }
      var l := lists[k];
      if !l.autoClearCompleted || now <= l.endTime {
        return Ok(());
      }
      UncompletedKeepsIdsUnique(l.items);
      ReplaceKeepsWellFormed(lists, nextId, k, l.(items := Uncompleted(l.items)));
      lists := lists[k := l.(items := Uncompleted(l.items))];
      r := Ok(());
    }

    /** recreateRecurringList: when a recurring list has ended, inserts its
        successor for the next period; the original stays as it was. */
    method RecreateRecurringList(list: Id, now: Time) returns (r: Result<(), TodoError>)
      requires Valid()
      modifies this
      ensures Valid()
      ensures var k := ListIndex(old(lists), list);
        if k == |old(lists)| then r == Err(ListNotFound) && lists == old(lists) && nextId == old(nextId)
        else
          var l := old(lists)[k];
          r == Ok(()) &&
          if l.recurrenceType != NoRecurrence && now > l.endTime
          then lists == old(lists) + [Successor(l, calendar(l.recurrenceType, l.startTime), old(nextId))] &&
               nextId == old(nextId) + 1
          else lists == old(lists) && nextId == old(nextId)
    {
      var k := ListIndex(lists, list);
      if k == |lists| {
        return Err(ListNotFound);
      }
      var l := lists[k];
      if l.recurrenceType == NoRecurrence || now <= l.endTime {
        return Ok(());
      }
      var s := Successor(l, calendar(l.recurrenceType, l.startTime), nextId);
      CarryOverKeepsIdsUnique(l.items, calendar(l.recurrenceType, l.startTime) - l.startTime);
      AppendKeepsWellFormed(lists, nextId, s);
      lists := lists + [s];
      nextId := nextId + 1;
      r := Ok(());
    }

    /** The (owner, name, start) the successor of `l` would have. */
    function NextSlot(l: ListDoc): (UserId, string, Time) {
      (l.owner, l.name, calendar(l.recurrenceType, l.startTime))
    }

    /** The list recreateRecurringList inserts for `l` under the id `id`. */
    function SuccessorOf(l: ListDoc, id: Id): (s: ListDoc)
      ensures Slot(s) == NextSlot(l) && s.id == id
    {
      Successor(l, calendar(l.recurrenceType, l.startTime), id)
    }

    /** Every list after the first |L0| is the successor of one of the first
        n expired lists. */
    ghost predicate AddedAreSuccessors(L0: seq<ListDoc>, L: seq<ListDoc>, expired: seq<ListDoc>, n: nat)
      requires n <= |expired|
    {
      forall k :: |L0| <= k < |L| ==> exists j :: 0 <= j < n && L[k] == SuccessorOf(expired[j], L[k].id)
    }

    /** The j-th expired list must be cleared by the pass: auto-clear is on,
        its successor did not exist at the start, and no other expired list
        has the same successor (which would have been created first). */
    ghost predicate MustClear(L0: seq<ListDoc>, expired: seq<ListDoc>, j: nat)
      requires j < |expired|
    {
      && expired[j].autoClearCompleted
      && NextSlot(expired[j]) !in Slots(L0)
      && forall j' :: 0 <= j' < |expired| && j' != j ==> NextSlot(expired[j']) != NextSlot(expired[j])
    }

    /** Each of the first n expired lists that must be cleared has been. */
    ghost predicate ClearedWhereMissing(L0: seq<ListDoc>, L: seq<ListDoc>, expired: seq<ListDoc>, n: nat)
      requires n <= |expired|
    {
      && |L0| <= |L|
      && forall j, k :: 0 <= j < n && 0 <= k < |L0| && L0[k].id == expired[j].id && MustClear(L0, expired, j) ==>
           L[k].items == Uncompleted(expired[j].items)
    }

    /** processRecurringLists: for each of the user's recurring lists that had
        ended when the call began, unless a list with the same owner, name and
        next start already exists, clears it (when auto-clear is on) and
        recreates it. No list is removed and no header changes; every list
        added is the successor of a visited list, with its carried-over items;
        every visited list has its successor afterwards; an auto-clear list
        whose successor was missing is cleared; no created list repeats an
        (owner, name, start); and when every successor already exists the
        call changes nothing. */
    method ProcessRecurringLists(user: UserId, now: Time)
      requires Valid()
      modifies this
      ensures Valid()
      ensures Evolves(old(lists), lists, user, now)
      ensures AddedAreSuccessors(old(lists), lists, ExpiredRecurring(old(lists), user, now),
                                 |ExpiredRecurring(old(lists), user, now)|)
      ensures forall e :: e in ExpiredRecurring(old(lists), user, now) ==> NextSlot(e) in Slots(lists)
      ensures ClearedWhereMissing(old(lists), lists, ExpiredRecurring(old(lists), user, now),
                                  |ExpiredRecurring(old(lists), user, now)|)
      ensures DistinctSlots(old(lists)) ==> DistinctSlots(lists)
      ensures (forall e :: e in ExpiredRecurring(old(lists), user, now) ==> NextSlot(e) in Slots(old(lists))) ==>
              lists == old(lists) && nextId == old(nextId)
    {
      var L0 := lists;
      ghost var N0 := nextId;
      var expired := ExpiredRecurring(lists, user, now);
      FilterPairwise(L0, (l: ListDoc) => IsExpiredRecurring(l, user, now), DifferentListId);
      ghost var allPresent := forall e :: e in expired ==> NextSlot(e) in Slots(L0);
      EvolvesFromStart(L0, user, now);
      for i := 0 to |expired|
        invariant Valid() && PassedUpTo(L0, lists, expired, i, user, now)
        invariant allPresent ==> lists == L0 && nextId == N0
      {
        PassTurn(user, now, L0, expired, i);
      }
      if DistinctSlots(L0) {
        EvolvesKeepsSlotsDistinct(L0, lists, user, now);
      }
    }

    /** The successors of the lists visited so far, and of the one just
        visited, are still present. */
    lemma SlotsStayPresent(before: seq<ListDoc>, after: seq<ListDoc>, expired: seq<ListDoc>, i: nat)
      requires i < |expired|
      requires forall j :: 0 <= j < i ==> NextSlot(expired[j]) in Slots(before)
      requires NextSlot(expired[i]) in Slots(after)
      requires |before| <= |after| && Slots(after)[..|before|] == Slots(before)
      ensures forall j :: 0 <= j < i + 1 ==> NextSlot(expired[j]) in Slots(after)
    {
      forall j | 0 <= j < i + 1 ensures NextSlot(expired[j]) in Slots(after) {
        var y := NextSlot(expired[j]);
        if j < i {
          assert y in Slots(after)[..|before|];
        }
      }
    }

    /** In a list sequence with distinct ids, `k0` is the only index holding its id. */
    lemma OnlyIndexWithId(L: seq<ListDoc>, k0: nat)
      requires k0 < |L| && Pairwise(L, DifferentListId)
      ensures forall k :: 0 <= k < |L| && L[k].id == L[k0].id ==> k == k0
    {
    }

    /** What the pass has established once the first i expired lists have
        been visited. */
    ghost predicate PassedUpTo(L0: seq<ListDoc>, L: seq<ListDoc>, expired: seq<ListDoc>, i: nat, user: UserId, now: Time)
      requires i <= |expired|
    {
      && Evolves(L0, L, user, now)
      && (forall j :: 0 <= j < i ==> NextSlot(expired[j]) in Slots(L))
      && AddedAreSuccessors(L0, L, expired, i)
      && ClearedWhereMissing(L0, L, expired, i)
    }

    /** One iteration of the pass: visits the i-th expired list. */
    method PassTurn(user: UserId, now: Time, ghost L0: seq<ListDoc>, expired: seq<ListDoc>, i: nat)
      requires Valid() && i < |expired| && PassedUpTo(L0, lists, expired, i, user, now)
      requires expired == ExpiredRecurring(L0, user, now) && Pairwise(expired, DifferentListId)
      modifies this
      ensures Valid() && PassedUpTo(L0, lists, expired, i + 1, user, now)
      ensures NextSlot(expired[i]) in Slots(old(lists)) ==> lists == old(lists) && nextId == old(nextId)
    {
      ghost var before := lists;
      MissingStaysMissing(L0, before, expired, i, user, now);
      VisitExpired(user, now, expired[i], L0);
      SlotsStayPresent(before, lists, expired, i);
      VisitKeepsOthers(L0, before, lists, expired, i, user, now);
    }

    /** Before visiting the i-th expired list: a successor slot that must be
        filled by it is not yet among the slots. */
    lemma MissingStaysMissing(L0: seq<ListDoc>, L: seq<ListDoc>, expired: seq<ListDoc>, i: nat, user: UserId, now: Time)
      requires i < |expired| && Evolves(L0, L, user, now) && AddedAreSuccessors(L0, L, expired, i)
      ensures MustClear(L0, expired, i) ==> NextSlot(expired[i]) !in Slots(L)
    {
      if MustClear(L0, expired, i) {
        forall k | 0 <= k < |L| ensures Slots(L)[k] != NextSlot(expired[i]) {
          if k < |L0| {
            assert Header(L[k]) == Header(L0[k]);
            assert Slots(L0)[k] == Slot(L0[k]);
          } else {
            assert exists j :: 0 <= j < i && L[k] == SuccessorOf(expired[j], L[k].id);
            var j :| 0 <= j < i && L[k] == SuccessorOf(expired[j], L[k].id);
          }
        }
      }
    }

    /** The visit of the i-th expired list extends what the pass has shown for
        the lists visited before it. */
    lemma VisitKeepsOthers(L0: seq<ListDoc>, before: seq<ListDoc>, after: seq<ListDoc>, expired: seq<ListDoc>, i: nat,
                           user: UserId, now: Time)
      requires i < |expired| && Pairwise(expired, DifferentListId)
      requires Evolves(L0, before, user, now) && Pairwise(before, DifferentListId)
      requires expired[i] in L0
      requires AddedAreSuccessors(L0, before, expired, i) && ClearedWhereMissing(L0, before, expired, i)
      requires TurnEffect(expired[i], before, after)
      requires MustClear(L0, expired, i) ==> NextSlot(expired[i]) !in Slots(before)
      ensures AddedAreSuccessors(L0, after, expired, i + 1) && ClearedWhereMissing(L0, after, expired, i + 1)
    {
      var e := expired[i];
      var k0 :| 0 <= k0 < |L0| && L0[k0] == e;
      assert before[k0].id == e.id by { assert Header(before[k0]) == Header(L0[k0]); }
      forall k | |L0| <= k < |after| ensures exists j :: 0 <= j < i + 1 && after[k] == SuccessorOf(expired[j], after[k].id) {
        if k < |before| {
          assert DifferentListId(before[k0], before[k]);
          var j :| 0 <= j < i && before[k] == SuccessorOf(expired[j], before[k].id);
          assert after[k] == before[k];
        } else {
          assert after[k] == SuccessorOf(expired[i], after[k].id);
        }
      }
      forall j, k | 0 <= j < i + 1 && 0 <= k < |L0| && L0[k].id == expired[j].id && MustClear(L0, expired, j)
        ensures after[k].items == Uncompleted(expired[j].items)
      {
        assert before[k].id == L0[k].id by { assert Header(before[k]) == Header(L0[k]); }
        if j < i {
          assert DifferentListId(expired[j], expired[i]);
          assert after[k] == before[k];
        }
      }
    }

    /** What one turn for the expired list `e` does to the collection: the
        lists already there keep their slots, only e's own document changes
        in place, everything appended is a successor of `e`, and when e's
        successor was missing and auto-clear is on, e's items are cleared. */
    ghost predicate TurnEffect(e: ListDoc, before: seq<ListDoc>, after: seq<ListDoc>) {
      && |before| <= |after| && Slots(after)[..|before|] == Slots(before)
      && (forall k :: 0 <= k < |before| && before[k].id != e.id ==> after[k] == before[k])
      && (forall k :: |before| <= k < |after| ==> after[k] == SuccessorOf(e, after[k].id))
      && (e.autoClearCompleted && NextSlot(e) !in Slots(before) ==>
            forall k :: 0 <= k < |before| && before[k].id == e.id ==> after[k].items == Uncompleted(e.items))
    }

    /** One turn of the pass over the lists that had expired when it began:
        the successor check, then the clear and the recreation. */
    method VisitExpired(user: UserId, now: Time, e: ListDoc, ghost L0: seq<ListDoc>)
      requires Valid() && Evolves(L0, lists, user, now)
      requires e in L0 && IsExpiredRecurring(e, user, now)
      modifies this
      ensures Valid() && Evolves(L0, lists, user, now)
      ensures NextSlot(e) in Slots(lists)
      ensures NextSlot(e) in Slots(old(lists)) ==> lists == old(lists) && nextId == old(nextId)
      ensures TurnEffect(e, old(lists), lists)
    {
      ghost var k0 :| 0 <= k0 < |L0| && L0[k0] == e;
      var nextStart := calendar(e.recurrenceType, e.startTime);
      assert NextSlot(e) == (user, e.name, nextStart);
      if (user, e.name, nextStart) in Slots(lists) {
        assert Slots(lists)[..|lists|] == Slots(lists);
        return;
      }
      ghost var before := lists;
      OnlyIndexWithId(before, k0);
      assert before[k0].id == e.id by { assert Header(before[k0]) == Header(e); }
      ClearStep(user, now, e, L0, k0);
      ghost var mid := lists;
      AddStep(user, now, e, L0, k0);
      TurnShape(e, before, mid, lists, k0);
    }

    /** The effect of a turn that clears and recreates `e`, found at k0. */
    lemma TurnShape(e: ListDoc, before: seq<ListDoc>, mid: seq<ListDoc>, after: seq<ListDoc>, k0: nat)
      requires k0 < |before| == |mid| && Slots(mid) == Slots(before) && before[k0].id == e.id
      requires forall k :: 0 <= k < |mid| && k != k0 ==> mid[k] == before[k]
      requires forall k :: 0 <= k < |before| && before[k].id == before[k0].id ==> k == k0
      requires e.autoClearCompleted ==> mid[k0].items == Uncompleted(e.items)
      requires exists id :: after == mid + [SuccessorOf(e, id)]
      ensures TurnEffect(e, before, after)
    {
      var id :| after == mid + [SuccessorOf(e, id)];
      assert Slots(after)[..|before|] == Slots(mid);
      assert SuccessorOf(e, id).id == id;
    }

    /** The first half of a turn: autoClearIfNeeded on the visited list. */
    method ClearStep(user: UserId, now: Time, e: ListDoc, ghost L0: seq<ListDoc>, ghost k0: nat)
      requires Valid() && Evolves(L0, lists, user, now)
      requires k0 < |L0| && L0[k0] == e && IsExpiredRecurring(e, user, now)
      modifies this
      ensures Valid() && Evolves(L0, lists, user, now) && nextId == old(nextId)
      ensures |lists| == |old(lists)| && Slots(lists) == Slots(old(lists))
      ensures forall k :: 0 <= k < |lists| && k != k0 ==> lists[k] == old(lists)[k]
      ensures Header(lists[k0]) == Header(e)
      ensures lists[k0].items == e.items || lists[k0].items == Uncompleted(e.items)
      ensures e.autoClearCompleted ==> lists[k0].items == Uncompleted(e.items)
    {
      assert Header(lists[k0]) == Header(e);
      ListIndexOfMember(lists, k0);
      if e.autoClearCompleted {
        EvolvesByClearing(L0, lists, user, now, k0);
        UncompletedIdempotent(e.items);
        var _ := AutoClearIfNeeded(e.id, now);
      }
    }

    /** The second half of a turn: recreateRecurringList on the visited list,
        which appends its successor. */
    method AddStep(user: UserId, now: Time, e: ListDoc, ghost L0: seq<ListDoc>, ghost k0: nat)
      requires Valid() && Evolves(L0, lists, user, now)
      requires k0 < |L0| && L0[k0] == e && IsExpiredRecurring(e, user, now)
      requires Header(lists[k0]) == Header(e)
      requires lists[k0].items == e.items || lists[k0].items == Uncompleted(e.items)
      requires NextSlot(e) !in Slots(lists)
      modifies this
      ensures Valid() && Evolves(L0, lists, user, now)
      ensures lists == old(lists) + [SuccessorOf(e, old(nextId))]
      ensures Slots(lists) == Slots(old(lists)) + [NextSlot(e)]
    {
      ListIndexOfMember(lists, k0);
      var nextStart := calendar(e.recurrenceType, e.startTime);
      SameHeaderSameSuccessor(lists[k0], e, nextStart, nextId);
      EvolvesByAdding(L0, lists, user, now, SuccessorOf(e, nextId));
      var _ := RecreateRecurringList(e.id, now);
    }

    /** getActiveListsForUser: processes the user's recurring lists, then
        returns those whose range contains `now`. */
    method GetActiveListsForUser(user: UserId, now: Time) returns (active: seq<ListDoc>)
      requires Valid()
      modifies this
      ensures Valid()
      ensures Evolves(old(lists), lists, user, now)
      ensures AddedAreSuccessors(old(lists), lists, ExpiredRecurring(old(lists), user, now),
                                 |ExpiredRecurring(old(lists), user, now)|)
      ensures forall e :: e in ExpiredRecurring(old(lists), user, now) ==> NextSlot(e) in Slots(lists)
      ensures ClearedWhereMissing(old(lists), lists, ExpiredRecurring(old(lists), user, now),
                                  |ExpiredRecurring(old(lists), user, now)|)
      ensures DistinctSlots(old(lists)) ==> DistinctSlots(lists)
      ensures (forall e :: e in ExpiredRecurring(old(lists), user, now) ==> NextSlot(e) in Slots(old(lists))) ==>
              lists == old(lists) && nextId == old(nextId)
      ensures active == ActiveLists(lists, user, now)
    {
      ProcessRecurringLists(user, now);
      active := ActiveLists(lists, user, now);
    }

    /** getListByName: the first list of `user` with that name, after
        refusing a blank name. */
    function GetListByName(user: UserId, name: string): (r: Result<ListDoc, TodoError>)
      reads this
      ensures IsBlank(name) <==> r == Err(EmptyName)
      ensures r.Ok? ==> r.value.owner == user && r.value.name == name
      ensures r.Ok? ==> exists k :: (0 <= k < |lists| && lists[k] == r.value &&
        forall j :: 0 <= j < k ==> !(lists[j].owner == user && lists[j].name == name))
      ensures r == Err(NameNotFound) <==> !IsBlank(name) && !HasListNamed(lists, user, name)
    {
      if IsBlank(name) then Err(EmptyName)
      else
        var k := NamedIndex(lists, user, name);
        if k == |lists| then Err(NameNotFound) else Ok(lists[k])
    }
  }
}
