/** src/app/team-dashboard/page.tsx: the team dashboard. Its stock-status
    rule, its required-field checks, its local list maintenance after a write,
    its search-and-filter effect and its CSV export. The database is replaced
    by the reply each call would receive. */
module TeamDashboard {
  import opened Wrappers
  import opened Text
  import opened Inventory
  import opened ItemFilter
  import opened ItemLists
  import opened Csv

  /** The nested ternary used on add and on update:
      stock > min ? 'In Stock' : (stock === 0 ? 'Out of Stock' : 'Low Stock'). */
  function StockStatus(current: int, min: int): string
  {
    if current > min then IN_STOCK else if current == 0 then OUT_OF_STOCK else LOW_STOCK
  }

  /** The three cases of the rule, each as an if-and-only-if. */
  lemma StockStatusCases(current: int, min: int)
    ensures StockStatus(current, min) == IN_STOCK <==> current > min
    ensures StockStatus(current, min) == OUT_OF_STOCK <==> current <= min && current == 0
    ensures StockStatus(current, min) == LOW_STOCK <==> current <= min && current != 0
    ensures StockStatus(current, min) in Labels()
  {
  }

  /** With a non-negative minimum: no stock is out of stock, stock up to the
      minimum is low, and stock equal to a positive minimum is low, not in
      stock. */
  lemma StockStatusThresholds(current: int, min: int)
    requires min >= 0
    ensures current == 0 ==> StockStatus(current, min) == OUT_OF_STOCK
    ensures 0 < current <= min ==> StockStatus(current, min) == LOW_STOCK
    ensures current == min > 0 ==> StockStatus(current, min) != IN_STOCK
  {
  }

  /** The add form (newItem). */
  datatype Draft = Draft(
    name: string,
    category: string,
    currentStock: int,
    minStock: int,
    location: string,
    unit: string,
    expireDate: string)

  const EMPTY_DRAFT := Draft("", "", 0, 0, "", "", "")

  /** Why a write is refused before the database is called. */
  datatype Refusal = LoginRequired | MissingFields

  /** `!user || !user.id`: nobody is signed in. */
  predicate SignedIn(user: Option<User>)
  {
    user.Some? && user.value.id != ""
  }

  predicate HasRequiredFields(name: string, category: string, location: string)
  {
    name != "" && category != "" && location != ""
  }

  /** The guards of handleAddItem, in their order: sign-in first, then the
      required fields. */
  function AddRefusal(user: Option<User>, d: Draft): (r: Option<Refusal>)
    ensures r == None <==> SignedIn(user) && HasRequiredFields(d.name, d.category, d.location)
    ensures r == Some(LoginRequired) <==> !SignedIn(user)
  {
    if !SignedIn(user) then Some(LoginRequired)
    else if !HasRequiredFields(d.name, d.category, d.location) then Some(MissingFields)
    else None
  }

  /** The guards of handleUpdateItem: an item being edited and a signed-in
      user, then the required fields of the edited item. */
  function UpdateRefusal(editing: Option<Item>, user: Option<User>): (r: Option<Refusal>)
    ensures r == None <==> (editing.Some? && SignedIn(user)
      && HasRequiredFields(editing.value.name, editing.value.category, editing.value.location))
    ensures r == Some(LoginRequired) <==> editing.None? || !SignedIn(user)
  {
    if editing.None? || !SignedIn(user) then Some(LoginRequired)
    else if !HasRequiredFields(editing.value.name, editing.value.category, editing.value.location) then Some(MissingFields)
    else None
  }

  /** The row handleAddItem inserts (itemData), as the database returns it
      with the id and timestamp it assigns. The status is derived from the
      counts, never taken from the form. */
  function NewRow(d: Draft, u: User, id: string, createdAt: string): (r: Item)
    ensures r.status == StockStatus(r.currentStock, r.minStock)
    ensures r.name == d.name && r.category == d.category && r.location == d.location
    ensures r.currentStock == d.currentStock && r.minStock == d.minStock
    ensures r.id == id && r.createdBy == u.email && r.updatedBy == u.email
  {
    Item(id, d.name, d.category, d.currentStock, d.minStock, d.unit, d.expireDate,
         StockStatus(d.currentStock, d.minStock), d.location, createdAt, createdAt, u.email, u.email)
  }

  /** The row handleUpdateItem writes (updates) over the edited item, as the
      database returns it. */
  function UpdatedRow(e: Item, u: User, now: string): (r: Item)
    ensures r.status == StockStatus(e.currentStock, e.minStock)
    ensures r.id == e.id && r.updatedBy == u.email && r.updatedAt == now
    ensures r.(status := e.status, updatedBy := e.updatedBy, updatedAt := e.updatedAt) == e
  {
    e.(status := StockStatus(e.currentStock, e.minStock), updatedBy := u.email, updatedAt := now)
  }

  function RefusalToast(r: Refusal, login: string): Toast
  {
    match r
    case LoginRequired => ErrorToast(login)
    case MissingFields => ErrorToast("Please fill in all required fields")
  }

  // ---------------------------------------------------------------------
  // Role-dependent affordances of the page

  /** The add button is disabled only for a visitor who is not signed in; a
      profile with role 'user' only gets the grey style. */
  predicate AddButtonDisabled(user: Option<User>)
  {
    !SignedIn(user)
  }

  /** The edit and delete buttons of a card are rendered unless the profile's
      role is 'user'. */
  predicate ItemActionsShown(profile: Option<Profile>)
  {
    !(profile.Some? && profile.value.role == "user")
  }

  /** A signed-in 'user' can still open the add form and submit it: the page
      does not make that role read-only for adds. */
  lemma UserRoleCanAdd(u: User, p: Profile, d: Draft)
    requires u.id != "" && p.role == "user"
    requires HasRequiredFields(d.name, d.category, d.location)
    ensures !AddButtonDisabled(Some(u)) && AddRefusal(Some(u), d) == None
    ensures !ItemActionsShown(Some(p))
  {
  }

  // ---------------------------------------------------------------------
  // CSV export (handleExportCSV)

  /** The keys of a row object, in their order; the header line is their
      join. */
  const CSV_COLUMNS := ["Item Name", "Category", "Current Stock", "Min Stock", "Unit",
                        "Expire Date", "Status", "Location", "Updated"]

  function CsvHeader(): string
  {
    Join(CSV_COLUMNS, ",")
  }

  /** The nine values of a row, as String(...) renders them. Dates are kept
      as the stored strings. */
  function CsvValues(item: Item): seq<string>
  {
    [item.name, item.category, IntToString(item.currentStock), IntToString(item.minStock),
     item.unit, item.expireDate, item.status, item.location, item.updatedAt]
  }

  function QuotedAll(vs: seq<string>): (r: seq<Cell>)
    ensures |r| == |vs|
    ensures forall k :: 0 <= k < |vs| ==> r[k] == Quoted(vs[k])
  {
    if vs == [] then [] else [Quoted(vs[0])] + QuotedAll(vs[1..])
  }

  /** Every cell in quotes with inner quotes doubled, joined by commas. */
  function CsvLine(item: Item): string
  {
    EncodeRecord(QuotedAll(CsvValues(item)))
  }

  function CsvLines(items: seq<Item>): (r: seq<string>)
    ensures |r| == |items|
    ensures forall k :: 0 <= k < |items| ==> r[k] == CsvLine(items[k])
  {
    if items == [] then [] else [CsvLine(items[0])] + CsvLines(items[1..])
  }

  /** No file for an empty view; otherwise the header and one line per item. */
  function ExportCsv(filtered: seq<Item>): (r: Option<string>)
    ensures r.None? <==> filtered == []
  {
    if filtered == [] then None else Some(Join([CsvHeader()] + CsvLines(filtered), "\n"))
  }

  /** Every line reads back as the item's nine values, whatever characters
      they hold: the doubling makes the quoting reversible. */
  lemma CsvLineRoundTrip(item: Item)
    ensures ParseRecord(CsvLine(item)) == Some(CsvValues(item))
  {
    var cells := QuotedAll(CsvValues(item));
    ParseEncodedRecord(cells);
    assert Texts(cells) == CsvValues(item);
  }

  /** The text values of an item hold no line break. */
  predicate SingleLine(item: Item)
  {
    forall k :: 0 <= k < |CsvValues(item)| ==> '\n' !in CsvValues(item)[k]
  }

  lemma CsvLineSingle(item: Item)
    requires SingleLine(item)
    ensures '\n' !in CsvLine(item)
  {
    var vs := CsvValues(item);
    var cells := QuotedAll(vs);
    forall k | 0 <= k < |cells|
      ensures '\n' !in EncodeCells(cells)[k]
    {
      DoubleQuotesAvoids(vs[k], '\n');
    }
    JoinAvoids(EncodeCells(cells), ",", '\n');
  }

  /** When no value holds a line break, the file splits into exactly the
      header and one line per item of the view, in order. */
  lemma ExportCsvLines(filtered: seq<Item>)
    requires filtered != []
    requires forall k :: 0 <= k < |filtered| ==> SingleLine(filtered[k])
    ensures ExportCsv(filtered).Some?
    ensures Split(ExportCsv(filtered).value, '\n') == [CsvHeader()] + CsvLines(filtered)
    ensures |Split(ExportCsv(filtered).value, '\n')| == 1 + |filtered|
  {
    var body := CsvLines(filtered);
    var lines := [CsvHeader()] + body;
    HeaderSingle();
    LinesSingle(filtered);
    assert forall k :: 0 <= k < |lines| ==> '\n' !in lines[k] by {
      forall k | 0 <= k < |lines|
        ensures '\n' !in lines[k]
      {
        if k > 0 {
          assert lines[k] == body[k - 1];
        }
      }
    }
    SplitJoin(lines, '\n');
  }

  lemma HeaderSingle()
    ensures '\n' !in CsvHeader()
  {
    JoinAvoids(CSV_COLUMNS, ",", '\n');
  }

  lemma LinesSingle(items: seq<Item>)
    requires forall k :: 0 <= k < |items| ==> SingleLine(items[k])
    ensures forall k :: 0 <= k < |items| ==> '\n' !in CsvLines(items)[k]
  {
    forall k | 0 <= k < |items|
      ensures '\n' !in CsvLines(items)[k]
    {
      CsvLineSingle(items[k]);
    }
  }

  // ---------------------------------------------------------------------
  // The page's state and handlers

  class Page {
    var loading: bool
    var user: Option<User>
    var profile: Option<Profile>
    var items: seq<Item>
    var filteredItems: seq<Item>
    var draft: Draft
    var showAddForm: bool
    var editingItem: Option<Item>
    var showEditForm: bool
    var criteria: Criteria

    constructor ()
      ensures loading && user == None && profile == None && items == [] && filteredItems == []
      ensures draft == EMPTY_DRAFT && !showAddForm && editingItem == None && !showEditForm
      ensures criteria == NO_FILTER
    {
      loading := true;
      user := None;
      profile := None;
      items := [];
      filteredItems := [];
      draft := EMPTY_DRAFT;
      showAddForm := false;
      editingItem := None;
      showEditForm := false;
      criteria := NO_FILTER;
    }

    /** fetchInitialData: nobody signed in clears the page; a missing
        profile or a failed item query leaves the items as they were and shows
        the error; otherwise the items are the query's rows (ordered by name
        by the database) and the view shows them all. The activity log query
        is left out. */
    method FetchInitialData(signedIn: Option<User>, profileReply: Reply<Profile>, itemsReply: Reply<seq<Item>>)
      returns (toast: Toast)
      modifies this`loading, this`user, this`profile, this`items, this`filteredItems
      ensures user == signedIn && !loading
      ensures signedIn.None? ==>
        toast == NoToast && profile == None && items == [] && filteredItems == []
      ensures signedIn.Some? && profileReply.Failed? ==>
        toast == ErrorToast("Error fetching data: Could not fetch user profile.")
        && profile == old(profile) && items == old(items) && filteredItems == old(filteredItems)
      ensures signedIn.Some? && profileReply.Ok? && itemsReply.Failed? ==>
        toast == ErrorToast("Error fetching data: " + itemsReply.message)
        && profile == Some(profileReply.value) && items == old(items) && filteredItems == old(filteredItems)
      ensures signedIn.Some? && profileReply.Ok? && itemsReply.Ok? ==>
        toast == NoToast && profile == Some(profileReply.value)
        && items == itemsReply.value && filteredItems == itemsReply.value
    {
      loading := true;
      user := signedIn;
      toast := NoToast;
      if signedIn.None? {
        profile := None;
        items := [];
        filteredItems := [];
      } else if profileReply.Failed? {
        toast := ErrorToast("Error fetching data: Could not fetch user profile.");
      } else {
        profile := Some(profileReply.value);
        if itemsReply.Failed? {
          toast := ErrorToast("Error fetching data: " + itemsReply.message);
        } else {
          items := itemsReply.value;
          filteredItems := itemsReply.value;
        }
      }
      loading := false;
    }

    /** The filter effect, run whenever items, filters or the search term
        change. */
    method RefreshView()
      modifies this`filteredItems
      ensures filteredItems == View(items, criteria)
    {
      filteredItems := TeamFilter(items, criteria);
    }

    /** handleAddItem: on success the list is the old list plus the new row,
        sorted by name, and the form is reset and closed. */
    method AddItem(reply: WriteReply) returns (toast: Toast)
      modifies this`items, this`filteredItems, this`draft, this`showAddForm
      ensures AddRefusal(user, old(draft)).Some? ==>
        toast == RefusalToast(AddRefusal(user, old(draft)).value, "Please login to add items")
        && items == old(items) && filteredItems == old(filteredItems)
        && draft == old(draft) && showAddForm == old(showAddForm)
      ensures AddRefusal(user, old(draft)).None? && reply.WriteFailed? ==>
        toast == ErrorToast("Error: " + reply.message)
        && items == old(items) && filteredItems == old(filteredItems)
        && draft == old(draft) && showAddForm == old(showAddForm)
      ensures AddRefusal(user, old(draft)).None? && reply.Written? ==>
        toast == SuccessToast("\"" + old(draft).name + "\" added!")
        && items == SortedInsert(old(items), NewRow(old(draft), user.value, reply.id, reply.at))
        && filteredItems == items && draft == EMPTY_DRAFT && !showAddForm
    {
      var refusal := AddRefusal(user, draft);
      if refusal.Some? {
        return RefusalToast(refusal.value, "Please login to add items");
      }
      match reply
      case WriteFailed(message) =>
        toast := ErrorToast("Error: " + message);
      case Written(id, at) =>
        var row := NewRow(draft, user.value, id, at);
        var updated := SortedInsert(items, row);
        items := updated;
        filteredItems := updated;
        toast := SuccessToast("\"" + draft.name + "\" added!");
        draft := EMPTY_DRAFT;
        showAddForm := false;
    }

    /** handleUpdateItem: on success exactly the items with the edited id are
        replaced by the written row, and the edit form is closed. */
    method UpdateItem(reply: WriteReply) returns (toast: Toast)
      modifies this`items, this`filteredItems, this`editingItem, this`showEditForm
      ensures UpdateRefusal(old(editingItem), user).Some? ==>
        toast == RefusalToast(UpdateRefusal(old(editingItem), user).value, "Please login to update items")
        && items == old(items) && filteredItems == old(filteredItems)
        && editingItem == old(editingItem) && showEditForm == old(showEditForm)
      ensures UpdateRefusal(old(editingItem), user).None? && reply.WriteFailed? ==>
        toast == ErrorToast("Error: " + reply.message)
        && items == old(items) && filteredItems == old(filteredItems)
        && editingItem == old(editingItem) && showEditForm == old(showEditForm)
      ensures UpdateRefusal(old(editingItem), user).None? && reply.Written? ==>
        toast == SuccessToast("\"" + old(editingItem).value.name + "\" updated!")
        && items == ReplaceById(old(items), old(editingItem).value.id,
                                UpdatedRow(old(editingItem).value, user.value, reply.at))
        && filteredItems == items && editingItem == None && !showEditForm
    {
      var refusal := UpdateRefusal(editingItem, user);
      if refusal.Some? {
        return RefusalToast(refusal.value, "Please login to update items");
      }
      var edited := editingItem.value;
      match reply
      case WriteFailed(message) =>
        toast := ErrorToast("Error: " + message);
      case Written(_, now) =>
        var updated := ReplaceById(items, edited.id, UpdatedRow(edited, user.value, now));
        items := updated;
        filteredItems := updated;
        toast := SuccessToast("\"" + edited.name + "\" updated!");
        editingItem := None;
        showEditForm := false;
    }

    /** handleDeleteItem: after confirmation and sign-in, a successful delete
        removes exactly the items with that id; the view is then recomputed
        by the filter effect. */
    method DeleteItem(itemId: string, itemName: string, confirmed: bool, reply: WriteReply) returns (toast: Toast)
      modifies this`items
      ensures !confirmed ==> toast == NoToast && items == old(items)
      ensures confirmed && !SignedIn(user) ==>
        toast == ErrorToast("Please login to delete items") && items == old(items)
      ensures confirmed && SignedIn(user) && reply.WriteFailed? ==>
        toast == ErrorToast("Error deleting item: " + reply.message) && items == old(items)
      ensures confirmed && SignedIn(user) && reply.Written? ==>
        toast == SuccessToast("\"" + itemName + "\" has been deleted.")
        && items == RemoveById(old(items), itemId)
    {
      if !confirmed {
        return NoToast;
      }
      if !SignedIn(user) {
        return ErrorToast("Please login to delete items");
      }
      match reply
      case WriteFailed(message) =>
        toast := ErrorToast("Error deleting item: " + message);
      case Written(_, _) =>
        items := RemoveById(items, itemId);
        toast := SuccessToast("\"" + itemName + "\" has been deleted.");
    }

    /** handleExportCSV on the current view. */
    method ExportView() returns (file: Option<string>, toast: Toast)
      ensures file == ExportCsv(filteredItems)
      ensures file.None? <==> toast == ErrorToast("No data to export.")
      ensures file.Some? ==> toast == SuccessToast("CSV exported successfully!")
    {
      file := ExportCsv(filteredItems);
      toast := if file.None? then ErrorToast("No data to export.") else SuccessToast("CSV exported successfully!");
    }
  }
}
