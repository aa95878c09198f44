/** The task table of a workspace page: rows of (status, item text, due date), one
    row at a time in edit mode, and a checkbox that toggles a row's "done" status. */
module TableView {
  import opened Wrappers
  import opened Strings

  /** A row; `dueDate` is a millisecond time. */
  datatype Item = Item(id: string, status: string, text: string, dueDate: Option<int>)

  /** `handleChange(field, value)`: the field named and the value it receives. */
  datatype Change = SetId(id: string) | SetStatus(status: string) | SetText(text: string) | SetDueDate(date: int)

  const NotStarted: string := "not-started"
  const Done: string := "done"

  /** `{ ...item, [field]: value }`: only the named field changes. */
  function ApplyChange(item: Item, c: Change): (r: Item)
    ensures c.SetId? ==> r == item.(id := c.id)
    ensures c.SetStatus? ==> r == item.(status := c.status)
    ensures c.SetText? ==> r == item.(text := c.text)
    ensures c.SetDueDate? ==> r == item.(dueDate := Some(c.date))
  {
    match c
    case SetId(v) => item.(id := v)
    case SetStatus(v) => item.(status := v)
    case SetText(v) => item.(text := v)
    case SetDueDate(v) => item.(dueDate := Some(v))
  }

  /** The list `handleSave` hands on: every row with the edited row's id replaced by
      it, the others and the order kept. */
  function ReplaceById(items: seq<Item>, edited: Item): (r: seq<Item>)
    ensures |r| == |items|
    ensures forall i :: 0 <= i < |items| && items[i].id == edited.id ==> r[i] == edited
    ensures forall i :: 0 <= i < |items| && items[i].id != edited.id ==> r[i] == items[i]
  {
    seq(|items|, i requires 0 <= i < |items| => if items[i].id == edited.id then edited else items[i])
  }

  /** Saving keeps every row's id, and saving the same row again changes nothing. */
  lemma ReplaceByIdStable(items: seq<Item>, edited: Item)
    ensures forall i :: 0 <= i < |items| ==> ReplaceById(items, edited)[i].id == items[i].id
    ensures ReplaceById(ReplaceById(items, edited), edited) == ReplaceById(items, edited)
  {
  }

  /** The checkbox rule: "done" goes back to "not-started", anything else to "done". */
  function Toggle(status: string): (r: string)
    ensures r == Done <==> status != Done
    ensures r == NotStarted <==> status == Done
  {
    if status == Done then NotStarted else Done
  }

  /** Toggling twice restores a status exactly when it was "done" or "not-started". */
  lemma ToggleTwice(status: string)
    ensures Toggle(Toggle(status)) == status <==> status == Done || status == NotStarted
    ensures status != Done ==> Toggle(Toggle(status)) == NotStarted
  {
  }

  /** `toggleDone(id)`: the rows with that id get the toggled status; ids, text,
      due dates, the other rows and the order are unchanged. */
  function ToggleDone(items: seq<Item>, id: string): (r: seq<Item>)
    ensures |r| == |items|
    ensures forall i :: 0 <= i < |items| && items[i].id == id ==>
              r[i] == items[i].(status := Toggle(items[i].status))
    ensures forall i :: 0 <= i < |items| && items[i].id != id ==> r[i] == items[i]
  {
    seq(|items|, i requires 0 <= i < |items| =>
      if items[i].id == id then items[i].(status := Toggle(items[i].status)) else items[i])
  }

  /** Toggling a row twice restores it when its status was "done" or "not-started";
      an "in-progress" row comes back "not-started". */
  lemma ToggleDoneTwice(items: seq<Item>, id: string)
    ensures forall i :: 0 <= i < |items| && (items[i].status == Done || items[i].status == NotStarted) ==>
              ToggleDone(ToggleDone(items, id), id)[i] == items[i]
    ensures forall i :: 0 <= i < |items| && items[i].id == id && items[i].status == "in-progress" ==>
              ToggleDone(ToggleDone(items, id), id)[i] == items[i].(status := NotStarted)
  {
  }

  /** The status text shown on a row: the first "-" becomes a space, later ones stay. */
  function StatusLabel(status: string): (r: string)
    ensures |r| == |status|
    ensures '-' in status ==> r[IndexOf(status, '-').value] == ' '
    ensures forall j :: 0 <= j < |status| && j != (match IndexOf(status, '-') case Some(k) => k case None => |status|) ==>
              r[j] == status[j]
  {
    ReplaceFirst(status, '-', ' ')
  }

  /** The status menu's "not-started" reads "not started". */
  lemma NotStartedLabel()
    ensures StatusLabel(NotStarted) == "not started"
  {
    assert NotStarted == "not" + "-" + "started";
    assert "not started" == "not" + " " + "started";
    DashedLabel("not", "started");
  }

  /** A status whose first dash follows `a` reads `a`, a space, then the rest as it was. */
  lemma DashedLabel(a: string, b: string)
    requires '-' !in a
    ensures StatusLabel(a + "-" + b) == a + " " + b
  {
    var s := a + "-" + b;
    assert s[..|a|] == a;
    IndexOfAt(s, '-', |a|);
    var r := StatusLabel(s);
    assert forall j :: 0 <= j < |r| ==> r[j] == (a + " " + b)[j];
  }

  /** "in-progress" reads "in progress". */
  lemma InProgressLabel()
    ensures StatusLabel("in-progress") == "in progress"
  {
    assert "in-progress" == "in" + "-" + "progress";
    assert "in progress" == "in" + " " + "progress";
    DashedLabel("in", "progress");
  }

  /** Only the first dash of a status becomes a space: "a-b-c" reads "a b-c". */
  lemma SecondDashKept()
    ensures StatusLabel("a-b-c") == "a b-c"
  {
    IndexOfAt("a-b-c", '-', 1);
    var r := StatusLabel("a-b-c");
    assert forall j :: 0 <= j < |r| ==> r[j] == "a b-c"[j];
  }

  /** The table's edit state over the rows the parent passes in; `onChange` is
      modelled as replacing `items`. */
  class Table {
    var items: seq<Item>
    var editingId: Option<string>
    var editingItem: Option<Item>

    constructor (items: seq<Item>)
      ensures this.items == items && editingId == None && editingItem == None
    {
      this.items := items;
      editingId := None;
      editingItem := None;
    }

    /** `handleAdd` with `now` standing for `Date.now()`: an empty "not-started" row
        whose id is the decimal time is appended and put in edit mode. */
    method HandleAdd(now: nat)
      modifies this
      ensures items == old(items) + [Item(NatToString(now), NotStarted, "", None)]
      ensures editingId == Some(NatToString(now))
      ensures editingItem == Some(Item(NatToString(now), NotStarted, "", None))
    {
      var newItem := Item(NatToString(now), NotStarted, "", None);
      items := items + [newItem];
      editingId := Some(newItem.id);
      editingItem := Some(newItem);
    }

    /** `handleEdit`: the row becomes the edited one. */
    method HandleEdit(item: Item)
      modifies this
      ensures editingId == Some(item.id) && editingItem == Some(item)
      ensures items == old(items)
    {
      editingId := Some(item.id);
      editingItem := Some(item);
    }

    /** `handleSave`: nothing without an edited row; otherwise the edited row replaces
        the rows with its id, and edit mode ends. */
    method HandleSave()
      modifies this
      ensures old(editingItem).None? ==>
                items == old(items) && editingId == old(editingId) && editingItem == None
      ensures old(editingItem).Some? ==>
                items == ReplaceById(old(items), old(editingItem).value) &&
                editingId == None && editingItem == None
    {
      if editingItem.None? {
        return;
      }
      items := ReplaceById(items, editingItem.value);
      editingId := None;
      editingItem := None;
    }

    /** `handleChange`: only the named field of the edited row changes, and nothing
        at all when no row is edited; `editingId` is left as it was. */
    method HandleChange(c: Change)
      modifies this
      ensures old(editingItem).None? ==> editingItem == None
      ensures old(editingItem).Some? ==> editingItem == Some(ApplyChange(old(editingItem).value, c))
      ensures items == old(items) && editingId == old(editingId)
    {
      if editingItem.None? {
        return;
      }
      editingItem := Some(ApplyChange(editingItem.value, c));
    }

    /** `toggleDone`: the rows with the id get the toggled status. */
    method HandleToggleDone(id: string)
      modifies this
      ensures items == ToggleDone(old(items), id)
      ensures editingId == old(editingId) && editingItem == old(editingItem)
    {
      items := ToggleDone(items, id);
    }
  }
}
