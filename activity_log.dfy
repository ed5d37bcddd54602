/** src/components/ActivityLogModal.tsx: the badge colour of a log action and
    the one-line summary of a log's changes. A log's changes are whatever JSON
    the writing page stored; String(x) inside a template literal and
    JSON.stringify are parameters. */
module ActivityLog {
  import opened Wrappers
  import opened Text

  /** A JSON value as the database returns it; numbers are integers here. */
  datatype Json =
    | JNull
    | JBool(b: bool)
    | JNum(n: int)
    | JStr(s: string)
    | JArr(elems: seq<Json>)
    | JObj(fields: seq<(string, Json)>)

  /** JavaScript truthiness of a JSON value. */
  predicate Truthy(j: Json)
  {
    match j
    case JNull => false
    case JBool(b) => b
    case JNum(n) => n != 0
    case JStr(s) => s != ""
    case JArr(_) => true
    case JObj(_) => true
  }

  function Lookup(fields: seq<(string, Json)>, key: string): (r: Option<Json>)
    ensures r.Some? ==> exists k :: 0 <= k < |fields| && fields[k] == (key, r.value)
    ensures r.None? ==> forall k :: 0 <= k < |fields| ==> fields[k].0 != key
  {
    if fields == [] then None
    else if fields[0].0 == key then Some(fields[0].1)
    else
      var r := Lookup(fields[1..], key);
      assert r.Some? ==> exists k :: 0 <= k < |fields| && fields[k] == (key, r.value) by {
        if r.Some? {
          var k :| 0 <= k < |fields[1..]| && fields[1..][k] == (key, r.value);
          assert fields[k + 1] == (key, r.value);
        }
      }
      r
  }

  /** `value.key`, defined (not undefined): only an object has properties. */
  function Get(j: Json, key: string): Option<Json>
  {
    if j.JObj? then Lookup(j.fields, key) else None
  }

  function ArrayEntries(elems: seq<Json>, from: nat): (r: seq<(string, Json)>)
    ensures |r| == |elems|
    ensures forall k :: 0 <= k < |elems| ==> r[k] == (NatToString(from + k), elems[k])
    decreases |elems|
  {
    if elems == [] then [] else [(NatToString(from), elems[0])] + ArrayEntries(elems[1..], from + 1)
  }

  function CharEntries(s: string, from: nat): (r: seq<(string, Json)>)
    ensures |r| == |s|
    ensures forall k :: 0 <= k < |s| ==> r[k] == (NatToString(from + k), JStr([s[k]]))
    decreases |s|
  {
    if s == [] then [] else [(NatToString(from), JStr([s[0]]))] + CharEntries(s[1..], from + 1)
  }

  /** Object.entries: an object's fields, an array's or a string's indexed
      elements, and nothing for the other values. */
  function Entries(j: Json): seq<(string, Json)>
  {
    match j
    case JObj(fs) => fs
    case JArr(es) => ArrayEntries(es, 0)
    case JStr(s) => CharEntries(s, 0)
    case _ => []
  }

  const ARROW := " \U{2192} "

  /** An entry whose value is an object with both `from` and `to`, as
      `key: "from" → "to"`. */
  function FromTo(key: string, from: Json, to: Json, show: Json -> string): string
  {
    key + ": \"" + show(from) + "\"" + ARROW + "\"" + show(to) + "\""
  }

  predicate HasFromTo(value: Json)
  {
    Get(value, "from").Some? && Get(value, "to").Some?
  }

  /** One entry as the component renders it. `typeof null === 'object'`, so
      for a null value the test goes on to read `value.from` and throws a
      TypeError (None). */
  function EntryAsWritten(key: string, value: Json, show: Json -> string, stringify: Json -> string): (r: Option<string>)
    ensures r.None? <==> value == JNull
  {
    if value == JNull then None
    else if HasFromTo(value) then Some(FromTo(key, Get(value, "from").value, Get(value, "to").value, show))
    else Some(key + ": " + stringify(value))
  }

  /** One entry with the null case sent to JSON.stringify, as for every
      other value that is not a from/to pair. Whatever the value, the entry
      is labelled with its key. */
  function Entry(key: string, value: Json, show: Json -> string, stringify: Json -> string): (r: string)
    ensures StartsWith(r, key + ": ")
  {
    if HasFromTo(value) then FromTo(key, Get(value, "from").value, Get(value, "to").value, show)
    else key + ": " + stringify(value)
  }

  /** Wherever the component does not throw it renders the entry as Entry
      does. */
  lemma EntryAgrees(key: string, value: Json, show: Json -> string, stringify: Json -> string)
    requires value != JNull
    ensures EntryAsWritten(key, value, show, stringify) == Some(Entry(key, value, show, stringify))
  {
  }

  /** `.map(...)` over the entries as written: the first null value throws. */
  function RenderAsWritten(es: seq<(string, Json)>, show: Json -> string, stringify: Json -> string): (r: Option<seq<string>>)
    ensures r.None? <==> exists k :: 0 <= k < |es| && es[k].1 == JNull
    ensures r.Some? ==> |r.value| == |es|
  {
    if es == [] then Some([])
    else
      match EntryAsWritten(es[0].0, es[0].1, show, stringify)
      case None => None
      case Some(first) =>
        var rest := RenderAsWritten(es[1..], show, stringify);
        assert (exists k :: 0 <= k < |es| && es[k].1 == JNull) <==> (exists k :: 0 <= k < |es[1..]| && es[1..][k].1 == JNull) by {
          if exists k :: 0 <= k < |es| && es[k].1 == JNull {
            var k :| 0 <= k < |es| && es[k].1 == JNull;
            assert k > 0 && es[1..][k - 1].1 == JNull;
          }
          if exists k :: 0 <= k < |es[1..]| && es[1..][k].1 == JNull {
            var k :| 0 <= k < |es[1..]| && es[1..][k].1 == JNull;
            assert es[k + 1].1 == JNull;
          }
        }
        if rest.None? then None else Some([first] + rest.value)
  }

  function Render(es: seq<(string, Json)>, show: Json -> string, stringify: Json -> string): (r: seq<string>)
    ensures |r| == |es|
    ensures forall k :: 0 <= k < |es| ==> r[k] == Entry(es[k].0, es[k].1, show, stringify)
  {
    if es == [] then []
    else
      var first, rest := Entry(es[0].0, es[0].1, show, stringify), Render(es[1..], show, stringify);
      assert forall k :: 1 <= k < |es| ==> ([first] + rest)[k] == rest[k - 1];
      [first] + rest
  }

  lemma {:induction false} RenderAgrees(es: seq<(string, Json)>, show: Json -> string, stringify: Json -> string)
    requires RenderAsWritten(es, show, stringify).Some?
    ensures RenderAsWritten(es, show, stringify).value == Render(es, show, stringify)
  {
    if es != [] {
      EntryAgrees(es[0].0, es[0].1, show, stringify);
      RenderAgrees(es[1..], show, stringify);
    }
  }

  /** `changes.created` is truthy. */
  predicate MarkedCreated(changes: Json)
  {
    Get(changes, "created").Some? && Truthy(Get(changes, "created").value)
  }

  /** formatChanges as written; None is the TypeError it throws. */
  function FormatChangesAsWritten(changes: Json, show: Json -> string, stringify: Json -> string): Option<string>
  {
    if !Truthy(changes) then Some("")
    else if MarkedCreated(changes) then Some("Item created")
    else
      match RenderAsWritten(Entries(changes), show, stringify)
      case None => None
      case Some(parts) => Some(Join(parts, ", "))
  }

  /** Joining strings that are all non-empty gives '' only for no strings. */
  lemma {:induction false} JoinNonEmpty(parts: seq<string>, sep: string)
    requires forall k :: 0 <= k < |parts| ==> parts[k] != ""
    ensures Join(parts, sep) == "" <==> parts == []
  {
    if |parts| > 1 {
      JoinNonEmpty(parts[1..], sep);
    }
  }

  /** formatChanges with null values rendered by JSON.stringify. The
      summary is empty exactly for falsy changes and for unmarked changes
      with no entries: every entry renders to a labelled, non-empty string. */
  function FormatChanges(changes: Json, show: Json -> string, stringify: Json -> string): (r: string)
    ensures r == "" <==> !Truthy(changes) || (!MarkedCreated(changes) && Entries(changes) == [])
  {
    if !Truthy(changes) then ""
    else if MarkedCreated(changes) then "Item created"
    else
      var parts := Render(Entries(changes), show, stringify);
      assert forall k :: 0 <= k < |parts| ==> parts[k] != "" by {
        forall k | 0 <= k < |parts|
          ensures parts[k] != ""
        {
          assert StartsWith(parts[k], Entries(changes)[k].0 + ": ");
        }
      }
      JoinNonEmpty(parts, ", ");
      Join(parts, ", ")
  }

  /** The two agree wherever the component does not throw, and it throws
      exactly on a summary that reaches an entry whose value is null. */
  lemma FormatChangesAgrees(changes: Json, show: Json -> string, stringify: Json -> string)
    ensures FormatChangesAsWritten(changes, show, stringify).Some? ==>
      FormatChangesAsWritten(changes, show, stringify).value == FormatChanges(changes, show, stringify)
    ensures FormatChangesAsWritten(changes, show, stringify).None? <==>
      Truthy(changes) && !MarkedCreated(changes)
      && exists k :: 0 <= k < |Entries(changes)| && Entries(changes)[k].1 == JNull
  {
    if Truthy(changes) && !MarkedCreated(changes) && RenderAsWritten(Entries(changes), show, stringify).Some? {
      RenderAgrees(Entries(changes), show, stringify);
    }
  }

  /** A created-item log whose row had an empty unit, stored as null: the
      component throws, where the summary should name the entry. */
  lemma NullEntryThrows(show: Json -> string, stringify: Json -> string)
    ensures FormatChangesAsWritten(JObj([("name", JStr("Tape")), ("unit", JNull)]), show, stringify) == None
    ensures FormatChanges(JObj([("name", JStr("Tape")), ("unit", JNull)]), show, stringify)
      == "name: " + stringify(JStr("Tape")) + ", " + "unit: " + stringify(JNull)
  {
    var c := JObj([("name", JStr("Tape")), ("unit", JNull)]);
    assert Entries(c)[1].1 == JNull;
    FormatChangesAgrees(c, show, stringify);
    var es := Entries(c);
    assert !HasFromTo(JStr("Tape")) && !HasFromTo(JNull);
    var parts := Render(es, show, stringify);
    assert |parts| == 2;
    assert parts[0] == "name: " + stringify(JStr("Tape"));
    assert parts[1] == "unit: " + stringify(JNull);
    assert parts[1..] == ["unit: " + stringify(JNull)];
    assert !MarkedCreated(c) by {
      assert c.fields[0].0 != "created" && c.fields[1].0 != "created";
    }
    assert FormatChanges(c, show, stringify) == Join(parts, ", ");
    assert Join(parts[1..], ", ") == parts[1];
    assert Join(parts, ", ") == parts[0] + ", " + parts[1];
  }

  /** No changes, or falsy ones, give the empty summary; an empty object
      too, since it has no entries to join. */
  lemma EmptySummaries(show: Json -> string, stringify: Json -> string)
    ensures FormatChanges(JNull, show, stringify) == ""
    ensures FormatChangesAsWritten(JNull, show, stringify) == Some("")
    ensures FormatChanges(JObj([]), show, stringify) == ""
    ensures FormatChangesAsWritten(JObj([]), show, stringify) == Some("")
  {
    assert Entries(JObj([])) == [];
  }

  /** A truthy `created` wins over every other key. */
  lemma CreatedWins(fields: seq<(string, Json)>, v: Json, show: Json -> string, stringify: Json -> string)
    requires Truthy(v)
    ensures FormatChanges(JObj([("created", v)] + fields), show, stringify) == "Item created"
    ensures FormatChangesAsWritten(JObj([("created", v)] + fields), show, stringify) == Some("Item created")
  {
    assert Lookup([("created", v)] + fields, "created") == Some(v);
  }

  /** A single from/to entry renders as `key: "from" → "to"`. */
  lemma SingleFromTo(key: string, from: Json, to: Json, show: Json -> string, stringify: Json -> string)
    requires key != "created"
    ensures FormatChanges(JObj([(key, JObj([("from", from), ("to", to)]))]), show, stringify)
      == key + ": \"" + show(from) + "\"" + ARROW + "\"" + show(to) + "\""
  {
    var v := JObj([("from", from), ("to", to)]);
    assert Lookup([(key, v)], "created") == None;
    assert Get(v, "from") == Some(from);
    assert Lookup([("to", to)], "to") == Some(to);
    assert Get(v, "to") == Some(to);
    assert Render([(key, v)], show, stringify) == [FromTo(key, from, to, show)];
  }

  /** getActionColor. */
  function ActionColor(action: string): string
  {
    if action == "created" then "bg-green-100 text-green-800"
    else if action == "updated" then "bg-blue-100 text-blue-800"
    else if action == "deleted" then "bg-red-100 text-red-800"
    else "bg-gray-100 text-gray-800"
  }

  /** The three actions get three different colours, none of them the grey
      every other action gets. */
  lemma ActionColorsDistinct(other: string)
    requires other != "created" && other != "updated" && other != "deleted"
    ensures ActionColor(other) == "bg-gray-100 text-gray-800"
    ensures ActionColor("created") != ActionColor("updated")
    ensures ActionColor("created") != ActionColor("deleted")
    ensures ActionColor("updated") != ActionColor("deleted")
    ensures ActionColor(other) !in {ActionColor("created"), ActionColor("updated"), ActionColor("deleted")}
  {
    assert "bg-green-100 text-green-800"[3] != "bg-blue-100 text-blue-800"[3];
    assert "bg-green-100 text-green-800"[3] != "bg-red-100 text-red-800"[3];
    assert "bg-blue-100 text-blue-800"[3] != "bg-red-100 text-red-800"[3];
    assert "bg-gray-100 text-gray-800"[5] != "bg-green-100 text-green-800"[5];
    assert "bg-gray-100 text-gray-800"[3] != "bg-blue-100 text-blue-800"[3];
    assert "bg-gray-100 text-gray-800"[3] != "bg-red-100 text-red-800"[3];
  }
}
