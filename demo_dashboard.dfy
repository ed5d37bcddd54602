/** src/components/InventoryDashboardDemo.tsx: the demo dashboard. It falls
    back to local demo data whenever a database call fails, derives the
    status with its own if-chain, keeps its list newest-first by prepending,
    and exports the unfiltered list as unquoted CSV. */
module DemoDashboard {
  import opened Wrappers
  import opened Text
  import opened Seqs
  import opened Inventory
  import opened ItemFilter
  import opened ItemLists
  import TeamDashboard
  import Csv

  /** updateItemStatus: out of stock at zero, then low up to the minimum,
      otherwise in stock. */
  function DemoStatus(current: int, min: int): string
  {
    if current == 0 then OUT_OF_STOCK else if current <= min then LOW_STOCK else IN_STOCK
  }

  lemma DemoStatusCases(current: int, min: int)
    ensures DemoStatus(current, min) == OUT_OF_STOCK <==> current == 0
    ensures DemoStatus(current, min) == LOW_STOCK <==> current != 0 && current <= min
    ensures DemoStatus(current, min) == IN_STOCK <==> current != 0 && current > min
    ensures DemoStatus(current, min) in Labels()
  {
  }

  /** The demo rule and the team dashboard's ternary disagree exactly on a
      zero stock with a negative minimum, where the ternary says in stock;
      with a non-negative minimum they always agree. */
  lemma StatusRulesAgree(current: int, min: int)
    ensures TeamDashboard.StockStatus(current, min) != DemoStatus(current, min) <==> current == 0 && min < 0
    ensures min >= 0 ==> TeamDashboard.StockStatus(current, min) == DemoStatus(current, min)
    ensures current == 0 && min < 0 ==> TeamDashboard.StockStatus(current, min) == IN_STOCK
  {
  }

  /** `user?.id || 'demo-user'`: the id written as creator and updater. */
  function Actor(user: Option<User>): (a: string)
    ensures a != ""
    ensures user.Some? && user.value.id != "" ==> a == user.value.id
  {
    if user.Some? && user.value.id != "" then user.value.id else "demo-user"
  }

  /** The two rows shown when the item query fails; every timestamp is the
      current time. */
  function DemoItems(actor: string, now: string): seq<Item>
  {
    [Item("demo-1", "Demo Laptop", "Electronics", 5, 2, "", "", IN_STOCK, "Office A", now, now, actor, actor),
     Item("demo-2", "Demo Mouse", "Electronics", 1, 3, "", "", LOW_STOCK, "Office B", now, now, actor, actor)]
  }

  const DEMO_CATEGORIES := ["Electronics"]
  const DEMO_LOCATIONS := ["Office A", "Office B"]

  /** The fallback lists are exactly the ones extraction would give for the
      demo rows. */
  lemma DemoDataConsistent(actor: string, now: string)
    ensures DistinctCategories(DemoItems(actor, now)) == DEMO_CATEGORIES
    ensures DistinctLocations(DemoItems(actor, now)) == DEMO_LOCATIONS
  {
    var items := DemoItems(actor, now);
    var cats := CategoryColumn(items);
    assert cats == ["Electronics", "Electronics"] by {
      assert |cats| == 2 && cats[0] == items[0].category && cats[1] == items[1].category;
    }
    var locs := LocationColumn(items);
    assert locs == ["Office A", "Office B"] by {
      assert |locs| == 2 && locs[0] == items[0].location && locs[1] == items[1].location;
    }
    assert DistinctCategories(items) == Unique(cats);
    assert DistinctLocations(items) == Unique(locs);
    UniquePair("Electronics", "Electronics");
    assert "Office A"[7] != "Office B"[7];
    UniquePair("Office A", "Office B");
  }

  /** Each demo row's status is the one the demo rule gives its counts. */
  lemma DemoRowsFollowRule(actor: string, now: string)
    ensures forall k :: 0 <= k < |DemoItems(actor, now)| ==>
      DemoItems(actor, now)[k].status == DemoStatus(DemoItems(actor, now)[k].currentStock, DemoItems(actor, now)[k].minStock)
  {
    var items := DemoItems(actor, now);
    assert DemoStatus(5, 2) == IN_STOCK && DemoStatus(1, 3) == LOW_STOCK;
    assert items[0].currentStock == 5 && items[0].minStock == 2 && items[0].status == IN_STOCK;
    assert items[1].currentStock == 1 && items[1].minStock == 3 && items[1].status == LOW_STOCK;
  }

  /** itemWithStatus on add: the status from the counts, creator and updater
      the actor, whatever the caller supplied. */
  function WithStatus(draft: Item, actor: string): (r: Item)
    ensures r.status == DemoStatus(draft.currentStock, draft.minStock)
    ensures r.createdBy == actor && r.updatedBy == actor
    ensures r.(status := draft.status, createdBy := draft.createdBy, updatedBy := draft.updatedBy) == draft
  {
    draft.(status := DemoStatus(draft.currentStock, draft.minStock), createdBy := actor, updatedBy := actor)
  }

  /** itemWithStatus on update. */
  function Restamped(updated: Item, actor: string, now: string): (r: Item)
    ensures r.status == DemoStatus(updated.currentStock, updated.minStock)
    ensures r.id == updated.id && r.updatedBy == actor && r.updatedAt == now
    ensures r.(status := updated.status, updatedBy := updated.updatedBy, updatedAt := updated.updatedAt) == updated
  {
    updated.(status := DemoStatus(updated.currentStock, updated.minStock), updatedBy := actor, updatedAt := now)
  }

  // ---------------------------------------------------------------------
  // CSV export (exportToCSV)

  const CSV_COLUMNS := ["Name", "Category", "Current Stock", "Min Stock", "Status", "Storage Location", "Date Updated"]

  /** The seven values of a row; the stored date stands for its rendering. */
  function CsvValues(item: Item): seq<string>
  {
    [item.name, item.category, IntToString(item.currentStock), IntToString(item.minStock),
     item.status, item.location, item.dateUpdated]
  }

  function CsvLines(items: seq<Item>): (r: seq<string>)
    ensures |r| == |items|
    ensures forall k :: 0 <= k < |items| ==> r[k] == Join(CsvValues(items[k]), ",")
  {
    if items == [] then [] else [Join(CsvValues(items[0]), ",")] + CsvLines(items[1..])
  }

  /** The header and one comma-joined, unquoted line per item. */
  function ExportCsv(items: seq<Item>): string
  {
    Join([Join(CSV_COLUMNS, ",")] + CsvLines(items), "\n")
  }

  /** None of the five text values holds c. */
  predicate Plain(item: Item, c: char)
  {
    c !in item.name && c !in item.category && c !in item.status && c !in item.location
    && c !in item.dateUpdated
  }

  /** The rendered numbers hold neither separator, so a plain item has no
      separator in any of its seven values. */
  lemma PlainValues(item: Item, c: char)
    requires c == ',' || c == '\n'
    requires Plain(item, c)
    ensures forall k :: 0 <= k < |CsvValues(item)| ==> c !in CsvValues(item)[k]
  {
    Csv.IntToStringPlain(item.currentStock);
    Csv.IntToStringPlain(item.minStock);
  }

  /** A line splits back into the seven values when none of them holds a
      comma; nothing protects a comma inside a name. */
  lemma CsvLineFields(item: Item)
    requires Plain(item, ',')
    ensures Split(Join(CsvValues(item), ","), ',') == CsvValues(item)
    ensures |Split(Join(CsvValues(item), ","), ',')| == 7
  {
    PlainValues(item, ',');
    SplitJoin(CsvValues(item), ',');
  }

  /** When no value holds a line break, the file is the header plus one line
      per item of the whole list, filtered or not. */
  lemma ExportCsvLines(items: seq<Item>)
    requires forall k :: 0 <= k < |items| ==> Plain(items[k], '\n')
    ensures Split(ExportCsv(items), '\n') == [Join(CSV_COLUMNS, ",")] + CsvLines(items)
    ensures |Split(ExportCsv(items), '\n')| == 1 + |items|
  {
    var body := CsvLines(items);
    var lines := [Join(CSV_COLUMNS, ",")] + body;
    HeaderSingle();
    LinesSingle(items);
    assert forall k :: 0 <= k < |lines| ==> '\n' !in lines[k] by {
      forall k | 0 <= k < |lines|
        ensures '\n' !in lines[k]
      {
        if k > 0 {
          assert lines[k] == body[k - 1];
        }
      }
    }
    SplitJoin(lines, '\n');
  }

  lemma HeaderSingle()
    ensures '\n' !in Join(CSV_COLUMNS, ",")
  {
    Csv.JoinAvoids(CSV_COLUMNS, ",", '\n');
  }

  lemma LinesSingle(items: seq<Item>)
    requires forall k :: 0 <= k < |items| ==> Plain(items[k], '\n')
    ensures forall k :: 0 <= k < |items| ==> '\n' !in CsvLines(items)[k]
  {
    forall k | 0 <= k < |items|
      ensures '\n' !in CsvLines(items)[k]
    {
      PlainValues(items[k], '\n');
      Csv.JoinAvoids(CsvValues(items[k]), ",", '\n');
    }
  }

  // ---------------------------------------------------------------------
  // The component's state and handlers

  class Demo {
    var user: Option<User>
    var items: seq<Item>
    var filteredItems: seq<Item>
    var criteria: Criteria
    var categories: seq<string>
    var locations: seq<string>

    constructor (user: Option<User>)
      ensures this.user == user && items == [] && filteredItems == [] && criteria == NO_FILTER
      ensures categories == [] && locations == []
    {
      this.user := user;
      items := [];
      filteredItems := [];
      criteria := NO_FILTER;
      categories := [];
      locations := [];
    }

    /** fetchItems, ordered newest first by the database: a failed query
        shows the demo rows and their lists; otherwise the rows and the lists
        extracted from them. */
    method FetchItems(reply: Reply<seq<Item>>, now: string)
      modifies this`items, this`categories, this`locations
      ensures reply.Failed? ==>
        items == DemoItems(Actor(user), now) && categories == DEMO_CATEGORIES && locations == DEMO_LOCATIONS
      ensures reply.Ok? ==>
        items == reply.value && categories == DistinctCategories(reply.value)
        && locations == DistinctLocations(reply.value)
    {
      match reply
      case Failed(_) =>
        items := DemoItems(Actor(user), now);
        categories := DEMO_CATEGORIES;
        locations := DEMO_LOCATIONS;
      case Ok(data) =>
        items := data;
        categories := DistinctCategories(data);
        locations := DistinctLocations(data);
    }

    /** filterItems, run whenever the items or a filter change. */
    method FilterItems()
      modifies this`filteredItems
      ensures filteredItems == View(items, criteria)
    {
      filteredItems := DashboardFilter(items, criteria);
    }

    /** addItem: the row goes in front of the list on both paths; a failed
        insert gives it a local "demo-" id. */
    method AddItem(draft: Item, reply: WriteReply, stamp: string, now: string) returns (toast: Toast)
      modifies this`items
      ensures |items| == |old(items)| + 1 && items[1..] == old(items)
      ensures items[0].status == DemoStatus(draft.currentStock, draft.minStock)
      ensures reply.Written? ==>
        items[0] == WithStatus(draft, Actor(user)).(id := reply.id, updatedAt := reply.at)
        && toast == SuccessToast("Item added successfully")
      ensures reply.WriteFailed? ==>
        items[0] == WithStatus(draft, Actor(user)).(id := "demo-" + stamp, updatedAt := now)
        && toast == SuccessToast("Item added to demo data")
    {
      var row := WithStatus(draft, Actor(user));
      match reply
      case Written(id, at) =>
        items := [row.(id := id, updatedAt := at)] + items;
        toast := SuccessToast("Item added successfully");
      case WriteFailed(_) =>
        items := [row.(id := "demo-" + stamp, updatedAt := now)] + items;
        toast := SuccessToast("Item added to demo data");
    }

    /** updateItem: the items with the id are replaced by the restamped row
        on both paths. */
    method UpdateItem(updated: Item, reply: WriteReply, now: string) returns (toast: Toast)
      modifies this`items
      ensures items == ReplaceById(old(items), updated.id, Restamped(updated, Actor(user), now))
      ensures toast == if reply.Written? then SuccessToast("Item updated successfully")
                       else SuccessToast("Item updated in demo data")
    {
      items := ReplaceById(items, updated.id, Restamped(updated, Actor(user), now));
      toast := if reply.Written? then SuccessToast("Item updated successfully")
               else SuccessToast("Item updated in demo data");
    }

    /** deleteItem: the items with the id are dropped on both paths. */
    method DeleteItem(id: string, reply: WriteReply) returns (toast: Toast)
      modifies this`items
      ensures items == RemoveById(old(items), id)
      ensures toast == if reply.Written? then SuccessToast("Item deleted successfully")
                       else SuccessToast("Item deleted from demo data")
    {
      items := RemoveById(items, id);
      toast := if reply.Written? then SuccessToast("Item deleted successfully")
               else SuccessToast("Item deleted from demo data");
    }

    /** exportToCSV works on items, not on the filtered view, and always
        reports success, even for a file holding only the header. */
    method Export() returns (file: string, toast: Toast)
      ensures file == ExportCsv(items)
      ensures toast == SuccessToast("Inventory exported to CSV")
    {
      file := ExportCsv(items);
      toast := SuccessToast("Inventory exported to CSV");
    }
  }
}
