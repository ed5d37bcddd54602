/** src/components/InventoryDashboard.tsx: the signed-in dashboard. It keeps
    the items newest first as the database returns them, extracts the filter
    options, filters with the same chain as the demo, refetches after a
    delete, and exports the filtered view with its text values in quotes. */
module Dashboard {
  import opened Wrappers
  import opened Text
  import opened Inventory
  import opened ItemFilter
  import opened ItemLists
  import opened Csv

  // ---------------------------------------------------------------------
  // CSV export (exportToCSV)

  const CSV_COLUMNS := ["Name", "Category", "Current Stock", "Min Stock", "Status", "Storage Location", "Date Updated"]

  function CsvHeader(): string
  {
    Join(CSV_COLUMNS, ",")
  }

  lemma HeaderSingle()
    ensures '\n' !in CsvHeader()
  {
    JoinAvoids(CSV_COLUMNS, ",", '\n');
  }

  /** The line as the component writes it: each text value between quotes,
      nothing escaped, the two numbers bare; the stored timestamp stands for
      its rendering. */
  function CsvLineAsWritten(item: Item): string
  {
    Join([WrapCell(item.name), WrapCell(item.category), IntToString(item.currentStock),
          IntToString(item.minStock), WrapCell(item.status), WrapCell(item.location),
          WrapCell(item.updatedAt)], ",")
  }

  /** The seven cells of a line, with the text values quoted and escaped. */
  function Cells(item: Item): (r: seq<Cell>)
    ensures |r| == 7
    ensures forall k :: 0 <= k < 7 ==> Readable(r[k])
  {
    IntToStringPlain(item.currentStock);
    IntToStringPlain(item.minStock);
    [Quoted(item.name), Quoted(item.category), Bare(IntToString(item.currentStock)),
     Bare(IntToString(item.minStock)), Quoted(item.status), Quoted(item.location), Quoted(item.updatedAt)]
  }

  /** The seven values a line should carry. */
  function CsvValues(item: Item): seq<string>
  {
    [item.name, item.category, IntToString(item.currentStock), IntToString(item.minStock),
     item.status, item.location, item.updatedAt]
  }

  /** The line with inner quotes doubled, as the team dashboard writes its
      cells. */
  function CsvLine(item: Item): string
  {
    EncodeRecord(Cells(item))
  }

  /** The escaped line reads back as the seven values for every item. */
  lemma CsvLineRoundTrip(item: Item)
    ensures ParseRecord(CsvLine(item)) == Some(CsvValues(item))
  {
    ParseEncodedRecord(Cells(item));
    CellsTexts(item);
  }

  /** The cells carry the seven values as their texts. */
  lemma CellsTexts(item: Item)
    ensures Texts(Cells(item)) == CsvValues(item)
  {
    var cells, vs := Cells(item), CsvValues(item);
    assert forall k :: 0 <= k < 7 ==> Texts(cells)[k] == vs[k];
  }

  /** No text value holds a double quote. */
  predicate QuoteFree(item: Item)
  {
    QUOTE !in item.name && QUOTE !in item.category && QUOTE !in item.status
    && QUOTE !in item.location && QUOTE !in item.updatedAt
  }

  /** Without a quote in any text value the written line is the escaped one,
      so it reads back as the seven values, commas in names included. */
  lemma AsWrittenQuoteFree(item: Item)
    requires QuoteFree(item)
    ensures CsvLineAsWritten(item) == CsvLine(item)
    ensures ParseRecord(CsvLineAsWritten(item)) == Some(CsvValues(item))
  {
    WrapIsQuoteWithoutQuotes(item.name);
    WrapIsQuoteWithoutQuotes(item.category);
    WrapIsQuoteWithoutQuotes(item.status);
    WrapIsQuoteWithoutQuotes(item.location);
    WrapIsQuoteWithoutQuotes(item.updatedAt);
    assert EncodeCells(Cells(item)) == [WrapCell(item.name), WrapCell(item.category), IntToString(item.currentStock),
          IntToString(item.minStock), WrapCell(item.status), WrapCell(item.location), WrapCell(item.updatedAt)];
    CsvLineRoundTrip(item);
  }

  /** An item whose name is a single double quote, with an ordinary
      category: its written line opens with three quotes, a reader takes the
      pair as an escaped quote and runs on past the comma into the category,
      so the line is not a valid record at all. Its escaped line reads back
      (CsvLineRoundTrip). */
  lemma AsWrittenQuoteBreaks(item: Item)
    requires item.name == [QUOTE]
    requires item.category != [] && item.category[0] != QUOTE && item.category[0] != ','
    ensures ParseRecord(CsvLineAsWritten(item)) == None
  {
    var fs := [WrapCell(item.name), WrapCell(item.category), IntToString(item.currentStock),
               IntToString(item.minStock), WrapCell(item.status), WrapCell(item.location),
               WrapCell(item.updatedAt)];
    var rest := Join(fs[2..], ",");
    assert fs[1..][1..] == fs[2..];
    assert Join(fs[1..], ",") == fs[1] + "," + rest;
    assert CsvLineAsWritten(item) == fs[0] + "," + (fs[1] + "," + rest);
    var tail := [QUOTE] + "," + rest;
    assert CsvLineAsWritten(item) == WrapCell([QUOTE]) + [','] + [QUOTE] + item.category + tail;
    UnescapedQuoteRecord(item.category, tail);
  }

  function CsvLines(items: seq<Item>): (r: seq<string>)
    ensures |r| == |items|
    ensures forall k :: 0 <= k < |items| ==> r[k] == CsvLine(items[k])
  {
    if items == [] then [] else [CsvLine(items[0])] + CsvLines(items[1..])
  }

  function CsvLinesAsWritten(items: seq<Item>): (r: seq<string>)
    ensures |r| == |items|
    ensures forall k :: 0 <= k < |items| ==> r[k] == CsvLineAsWritten(items[k])
  {
    if items == [] then [] else [CsvLineAsWritten(items[0])] + CsvLinesAsWritten(items[1..])
  }

  /** The file as written: the header and one line per item of the view. */
  function ExportCsvAsWritten(filtered: seq<Item>): string
  {
    Join([CsvHeader()] + CsvLinesAsWritten(filtered), "\n")
  }

  /** The file with escaped cells. */
  function ExportCsv(filtered: seq<Item>): string
  {
    Join([CsvHeader()] + CsvLines(filtered), "\n")
  }

  /** On a view without quotes the two files are the same. */
  lemma {:induction false} ExportAgreesQuoteFree(filtered: seq<Item>)
    requires forall k :: 0 <= k < |filtered| ==> QuoteFree(filtered[k])
    ensures ExportCsvAsWritten(filtered) == ExportCsv(filtered)
  {
    forall k | 0 <= k < |filtered|
      ensures CsvLinesAsWritten(filtered)[k] == CsvLines(filtered)[k]
    {
      AsWrittenQuoteFree(filtered[k]);
    }
    assert CsvLinesAsWritten(filtered) == CsvLines(filtered);
  }

  /** No text value holds a line break. */
  predicate SingleLine(item: Item)
  {
    '\n' !in item.name && '\n' !in item.category && '\n' !in item.status
    && '\n' !in item.location && '\n' !in item.updatedAt
  }

  lemma CsvLineSingle(item: Item)
    requires SingleLine(item)
    ensures '\n' !in CsvLine(item)
  {
    var cells := Cells(item);
    IntToStringPlain(item.currentStock);
    IntToStringPlain(item.minStock);
    forall k | 0 <= k < 7
      ensures '\n' !in EncodeCells(cells)[k]
    {
      if cells[k].Quoted? {
        DoubleQuotesAvoids(cells[k].text, '\n');
      }
    }
    JoinAvoids(EncodeCells(cells), ",", '\n');
  }

  /** The file has the header and exactly one line per item of the view. */
  lemma ExportCsvLines(filtered: seq<Item>)
    requires forall k :: 0 <= k < |filtered| ==> SingleLine(filtered[k])
    ensures Split(ExportCsv(filtered), '\n') == [CsvHeader()] + CsvLines(filtered)
    ensures |Split(ExportCsv(filtered), '\n')| == 1 + |filtered|
  {
    var lines := [CsvHeader()] + CsvLines(filtered);
    forall k | 0 <= k < |lines|
      ensures '\n' !in lines[k]
    {
      if k > 0 {
        CsvLineSingle(filtered[k - 1]);
        assert lines[k] == CsvLine(filtered[k - 1]);
      } else {
        HeaderSingle();
      }
    }
    SplitJoin(lines, '\n');
  }

  /** The line as written holds no line break when no text value does. */
  lemma AsWrittenSingle(item: Item)
    requires SingleLine(item)
    ensures '\n' !in CsvLineAsWritten(item)
  {
    IntToStringPlain(item.currentStock);
    IntToStringPlain(item.minStock);
    var fs := [WrapCell(item.name), WrapCell(item.category), IntToString(item.currentStock),
               IntToString(item.minStock), WrapCell(item.status), WrapCell(item.location),
               WrapCell(item.updatedAt)];
    JoinAvoids(fs, ",", '\n');
  }

  /** The file exportToCSV writes has the header and exactly one line per
      item of the view, whatever quotes the values hold. */
  lemma ExportAsWrittenLines(filtered: seq<Item>)
    requires forall k :: 0 <= k < |filtered| ==> SingleLine(filtered[k])
    ensures Split(ExportCsvAsWritten(filtered), '\n') == [CsvHeader()] + CsvLinesAsWritten(filtered)
    ensures |Split(ExportCsvAsWritten(filtered), '\n')| == 1 + |filtered|
  {
    var body := CsvLinesAsWritten(filtered);
    var lines := [CsvHeader()] + body;
    HeaderSingle();
    forall k | 0 <= k < |lines|
      ensures '\n' !in lines[k]
    {
      if k > 0 {
        AsWrittenSingle(filtered[k - 1]);
        assert lines[k] == body[k - 1];
      }
    }
    SplitJoin(lines, '\n');
  }

  /** Each of those lines reads back as its item's seven values. */
  lemma CsvLinesRoundTrip(filtered: seq<Item>)
    ensures forall k :: 0 <= k < |filtered| ==>
      ParseRecord(CsvLines(filtered)[k]) == Some(CsvValues(filtered[k]))
  {
    forall k | 0 <= k < |filtered|
      ensures ParseRecord(CsvLines(filtered)[k]) == Some(CsvValues(filtered[k]))
    {
      CsvLineRoundTrip(filtered[k]);
    }
  }

  // ---------------------------------------------------------------------
  // The component's state and handlers

  class Board {
    var items: seq<Item>
    var filteredItems: seq<Item>
    var criteria: Criteria
    var categories: seq<string>
    var locations: seq<string>

    constructor ()
      ensures items == [] && filteredItems == [] && criteria == NO_FILTER
      ensures categories == [] && locations == []
    {
      items := [];
      filteredItems := [];
      criteria := NO_FILTER;
      categories := [];
      locations := [];
    }

    /** fetchItems: a failed query keeps everything and shows an error;
        otherwise the rows, newest first, and the lists extracted from them. */
    method FetchItems(reply: Reply<seq<Item>>) returns (toast: Toast)
      modifies this`items, this`categories, this`locations
      ensures reply.Failed? ==>
        toast == ErrorToast("Failed to fetch inventory items")
        && items == old(items) && categories == old(categories) && locations == old(locations)
      ensures reply.Ok? ==>
        toast == NoToast && items == reply.value
        && categories == DistinctCategories(reply.value) && locations == DistinctLocations(reply.value)
    {
      match reply
      case Failed(_) =>
        toast := ErrorToast("Failed to fetch inventory items");
      case Ok(data) =>
        items := data;
        categories := DistinctCategories(data);
        locations := DistinctLocations(data);
        toast := NoToast;
    }

    /** filterItems, run whenever the items or a filter change. */
    method FilterItems()
      modifies this`filteredItems
      ensures filteredItems == View(items, criteria)
    {
      filteredItems := DashboardFilter(items, criteria);
    }

    /** handleDelete: after confirmation a successful delete refetches the
        list instead of editing it; a failed one changes nothing. */
    method HandleDelete(confirmed: bool, reply: WriteReply, refetch: Reply<seq<Item>>)
      returns (toast: Toast, fetchToast: Toast)
      modifies this`items, this`categories, this`locations
      ensures !(confirmed && reply.Written? && refetch.Ok?) ==>
        items == old(items) && categories == old(categories) && locations == old(locations)
      ensures !confirmed ==> toast == NoToast && fetchToast == NoToast
      ensures confirmed && reply.WriteFailed? ==> toast == ErrorToast("Failed to delete item") && fetchToast == NoToast
      ensures confirmed && reply.Written? ==> toast == SuccessToast("Item deleted successfully")
      ensures confirmed && reply.Written? && refetch.Failed? ==> fetchToast == ErrorToast("Failed to fetch inventory items")
      ensures confirmed && reply.Written? && refetch.Ok? ==> fetchToast == NoToast
      ensures confirmed && reply.Written? && refetch.Ok? ==>
        items == refetch.value && categories == DistinctCategories(refetch.value)
        && locations == DistinctLocations(refetch.value)
    {
      toast, fetchToast := NoToast, NoToast;
      if !confirmed {
        return;
      }
      match reply
      case WriteFailed(_) =>
        toast := ErrorToast("Failed to delete item");
      case Written(_, _) =>
        toast := SuccessToast("Item deleted successfully");
        fetchToast := FetchItems(refetch);
    }

    /** exportToCSV on the filtered view, its cells wrapped in quotes but
        not escaped; on a view without quotes that is the escaped file, whose
        lines read back as the items' values. It reports success whatever
        the view holds. */
    method Export() returns (file: string, toast: Toast)
      ensures file == ExportCsvAsWritten(filteredItems)
      ensures toast == SuccessToast("Inventory exported to CSV")
      ensures (forall k :: 0 <= k < |filteredItems| ==> QuoteFree(filteredItems[k])) ==>
        file == ExportCsv(filteredItems)
    {
      file := ExportCsvAsWritten(filteredItems);
      if forall k :: 0 <= k < |filteredItems| ==> QuoteFree(filteredItems[k]) {
        ExportAgreesQuoteFree(filteredItems);
      }
      toast := SuccessToast("Inventory exported to CSV");
    }
  }
}
