/** The local list maintenance the dashboards perform after a successful
    write, instead of refetching: sorted insert, replace by id and remove by
    id; and the category and location lists they extract from the items. */
module ItemLists {
  import opened Inventory
  import opened Seqs
  import Sorting

  /** `[...items, data].sort((a, b) => a.name.localeCompare(b.name))`. */
  function SortedInsert(items: seq<Item>, row: Item): seq<Item>
  {
    Sorting.SortBy(items + [row], NameOf)
  }

  /** The sorted insert is sorted by name and holds the old items and the new
      row, nothing more and nothing less. */
  lemma SortedInsertSpec(items: seq<Item>, row: Item)
    ensures Sorting.SortedBy(SortedInsert(items, row), NameOf)
    ensures multiset(SortedInsert(items, row)) == multiset(items) + multiset{row}
    ensures |SortedInsert(items, row)| == |items| + 1
    ensures row in SortedInsert(items, row)
  {
    Sorting.SortBySorted(items + [row], NameOf);
    Sorting.SortByPermutes(items + [row], NameOf);
    assert row in multiset(SortedInsert(items, row));
  }

  /** On a list already sorted by name, the sorted insert puts the row after
      every item with a name up to its own and leaves the rest in place. */
  lemma SortedInsertIntoSorted(items: seq<Item>, row: Item)
    requires Sorting.SortedBy(items, NameOf)
    ensures SortedInsert(items, row) == Sorting.InsertBy(row, items, NameOf)
  {
    assert (items + [row])[..|items|] == items;
    Sorting.SortBySortedIsIdentity(items, NameOf);
  }

  /** `items.map(i => i.id === id ? row : i)`. */
  function ReplaceById(items: seq<Item>, id: string, row: Item): (r: seq<Item>)
    ensures |r| == |items|
    ensures forall k :: 0 <= k < |items| && items[k].id == id ==> r[k] == row
    ensures forall k :: 0 <= k < |items| && items[k].id != id ==> r[k] == items[k]
  {
    if items == [] then []
    else [if items[0].id == id then row else items[0]] + ReplaceById(items[1..], id, row)
  }

  /** Replacing with a row that keeps the id leaves the list of ids as it
      was, and doing it twice is the same as doing it once. */
  lemma ReplaceByIdKeepsIds(items: seq<Item>, id: string, row: Item)
    requires row.id == id
    ensures forall k :: 0 <= k < |items| ==> ReplaceById(items, id, row)[k].id == items[k].id
    ensures ReplaceById(ReplaceById(items, id, row), id, row) == ReplaceById(items, id, row)
  {
  }

  /** A list without the id is left as it is. */
  lemma ReplaceAbsentId(items: seq<Item>, id: string, row: Item)
    requires forall k :: 0 <= k < |items| ==> items[k].id != id
    ensures ReplaceById(items, id, row) == items
  {
  }

  /** `items.filter(i => i.id !== id)`. */
  function RemoveById(items: seq<Item>, id: string): seq<Item>
  {
    if items == [] then [] else (if items[0].id != id then [items[0]] else []) + RemoveById(items[1..], id)
  }

  /** Removing keeps every other item, as often as it occurred, and no item
      with the id. */
  lemma {:induction false} RemoveByIdCounts(items: seq<Item>, id: string, x: Item)
    ensures multiset(RemoveById(items, id))[x] == if x.id == id then 0 else multiset(items)[x]
  {
    if items != [] {
      RemoveByIdCounts(items[1..], id, x);
      assert items == [items[0]] + items[1..];
    }
  }

  lemma RemoveByIdMembership(items: seq<Item>, id: string, x: Item)
    ensures x in RemoveById(items, id) <==> x in items && x.id != id
  {
    RemoveByIdCounts(items, id, x);
  }

  /** The survivors keep their order. */
  lemma {:induction false} RemoveByIdIsSubsequence(items: seq<Item>, id: string)
    ensures IsSubseq(RemoveById(items, id), items)
  {
    if items != [] {
      RemoveByIdIsSubsequence(items[1..], id);
      var r := RemoveById(items, id);
      if items[0].id != id {
        assert r[0] == items[0] && r[1..] == RemoveById(items[1..], id);
      } else {
        assert r == RemoveById(items[1..], id);
      }
    }
  }

  /** The list shrinks by exactly the number of items carrying the id. */
  function CountId(items: seq<Item>, id: string): nat
  {
    if items == [] then 0 else (if items[0].id == id then 1 else 0) + CountId(items[1..], id)
  }

  lemma {:induction false} RemoveByIdLength(items: seq<Item>, id: string)
    ensures |RemoveById(items, id)| == |items| - CountId(items, id)
  {
    if items != [] {
      RemoveByIdLength(items[1..], id);
    }
  }

  /** `items.map(item => item.category)`. */
  function CategoryColumn(items: seq<Item>): (r: seq<string>)
    ensures |r| == |items|
    ensures forall k :: 0 <= k < |items| ==> r[k] == items[k].category
  {
    if items == [] then [] else [items[0].category] + CategoryColumn(items[1..])
  }

  /** `items.map(item => item.storage_location)`. */
  function LocationColumn(items: seq<Item>): (r: seq<string>)
    ensures |r| == |items|
    ensures forall k :: 0 <= k < |items| ==> r[k] == items[k].location
  {
    if items == [] then [] else [items[0].location] + LocationColumn(items[1..])
  }

  /** The category filter's options: each category of some item, once. */
  function DistinctCategories(items: seq<Item>): (r: seq<string>)
    ensures NoDuplicates(r)
    ensures forall x :: x in r <==> exists k :: 0 <= k < |items| && items[k].category == x
  {
    var col := CategoryColumn(items);
    assert forall x :: x in col <==> exists k :: 0 <= k < |items| && items[k].category == x by {
      forall x | x in col
        ensures exists k :: 0 <= k < |items| && items[k].category == x
      {
        var k := FirstIndex(col, x);
        assert items[k].category == x;
      }
    }
    Unique(col)
  }

  /** The location filter's options: each location of some item, once. */
  function DistinctLocations(items: seq<Item>): (r: seq<string>)
    ensures NoDuplicates(r)
    ensures forall x :: x in r <==> exists k :: 0 <= k < |items| && items[k].location == x
  {
    var col := LocationColumn(items);
    assert forall x :: x in col <==> exists k :: 0 <= k < |items| && items[k].location == x by {
      forall x | x in col
        ensures exists k :: 0 <= k < |items| && items[k].location == x
      {
        var k := FirstIndex(col, x);
        assert items[k].location == x;
      }
    }
    Unique(col)
  }

  /** Both lists come in the order in which their values first occur among
      the items. */
  lemma DistinctListsOrder(items: seq<Item>)
    ensures forall i, j :: 0 <= i < j < |DistinctCategories(items)| ==>
      FirstIndex(CategoryColumn(items), DistinctCategories(items)[i])
        < FirstIndex(CategoryColumn(items), DistinctCategories(items)[j])
    ensures forall i, j :: 0 <= i < j < |DistinctLocations(items)| ==>
      FirstIndex(LocationColumn(items), DistinctLocations(items)[i])
        < FirstIndex(LocationColumn(items), DistinctLocations(items)[j])
  {
    UniqueFirstOccurrenceOrder(CategoryColumn(items));
    UniqueFirstOccurrenceOrder(LocationColumn(items));
  }
}
