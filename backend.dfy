/** The three edge functions: supabase/functions/manage-locations/index.ts,
    supabase/functions/manage-categories/index.ts (the same handler on another
    table and another item column) and supabase/functions/set-user-role/index.ts.
    The hosted database is a store object holding the tables the handlers
    read and write; each handler returns a status code and either changes
    the store or leaves it as it was. Every error the handler throws becomes
    a 400. */
module Backend {
  import opened Wrappers
  import opened Inventory
  import opened Profiles
  import Sorting

  /** A row of the locations or categories table. */
  datatype RefRow = RefRow(id: string, name: string, description: string, createdBy: string)

  /** Which of the two managed tables a handler works on. */
  datatype Kind = Locations | Categories

  /** The item column an entry of the table is used in. */
  function UsedIn(item: Item, kind: Kind): string
  {
    match kind
    case Locations => item.location
    case Categories => item.category
  }

  /** The JSON body of a managing request; None when it does not parse. */
  datatype Body = Body(id: string, name: string, description: string)

  /** The JSON body of a role change; None when it does not parse. */
  datatype RoleBody = RoleBody(userId: string, role: string)

  datatype Payload =
    | Rows(rows: seq<RefRow>)
    | Row(row: RefRow)
    | Message(text: string)
    | Error(text: string)
    | DbError   // a thrown error; its message comes from the database client

  datatype Response = Response(status: int, payload: Payload)

  const NOT_AUTHENTICATED := Response(401, Error("User not authenticated"))
  const INVALID_ACTION := Response(400, Error("Invalid action"))
  const THROWN := Response(400, DbError)

  function Plural(kind: Kind): string
  {
    match kind
    case Locations => "locations"
    case Categories => "categories"
  }

  function Singular(kind: Kind): string
  {
    match kind
    case Locations => "location"
    case Categories => "category"
  }

  function Title(kind: Kind): string
  {
    match kind
    case Locations => "Location"
    case Categories => "Category"
  }

  /** The actions that need an admin. */
  predicate IsWrite(action: string)
  {
    action == "create" || action == "update" || action == "delete"
  }

  /** `url.searchParams.get('action') || 'list'`: a missing or empty action
      is a list. */
  function ActionOf(param: Option<string>): (a: string)
    ensures a != ""
    ensures param.None? ==> a == "list"
    ensures param.Some? && param.value == "" ==> a == "list"
    ensures param.Some? && param.value != "" ==> a == param.value
  {
    if param.None? || param.value == "" then "list" else param.value
  }

  /** The authentication and admin checks, in their order: no user is a 401
      whatever follows; for a write, a missing profile is a thrown error and
      a role other than admin is a 403. None lets the request through. */
  function Gate(user: Option<User>, profiles: seq<Profile>, needsAdmin: bool, forbidden: string): (r: Option<Response>)
    ensures user.None? ==> r == Some(NOT_AUTHENTICATED)
    ensures r == None <==> user.Some? && (needsAdmin ==> RoleOf(profiles, user.value.id) == Some(ADMIN))
    ensures r.Some? && r.value.status == 403 <==>
      user.Some? && needsAdmin && RoleOf(profiles, user.value.id).Some? && RoleOf(profiles, user.value.id) != Some(ADMIN)
    ensures r.Some? ==> r.value.status in {400, 401, 403}
  {
    if user.None? then Some(NOT_AUTHENTICATED)
    else if !needsAdmin then None
    else match RoleOf(profiles, user.value.id)
      case None => Some(THROWN)
      case Some(role) => if role != ADMIN then Some(Response(403, Error(forbidden))) else None
  }

  /** No two rows of a table share an id. */
  predicate UniqueRefIds(rows: seq<RefRow>)
  {
    forall i, j :: 0 <= i < j < |rows| ==> rows[i].id != rows[j].id
  }

  predicate HasId(rows: seq<RefRow>, id: string)
  {
    exists k :: 0 <= k < |rows| && rows[k].id == id
  }

  function RefName(r: RefRow): string
  {
    r.name
  }

  /** `.select('name').eq('id', id).single()` then `.data?.name`: the row's
      name, or undefined when there is no such row; the query string then
      carries the text "undefined". */
  function ProbeName(rows: seq<RefRow>, id: string): (n: string)
    ensures !HasId(rows, id) ==> n == "undefined"
    ensures HasId(rows, id) ==> exists k :: 0 <= k < |rows| && rows[k].id == id && rows[k].name == n
  {
    if rows == [] then "undefined"
    else if rows[0].id == id then rows[0].name
    else
      var n := ProbeName(rows[1..], id);
      assert HasId(rows[1..], id) ==> HasId(rows, id) by {
        if HasId(rows[1..], id) {
          var k :| 0 <= k < |rows[1..]| && rows[1..][k].id == id;
          assert rows[k + 1].id == id;
        }
      }
      assert HasId(rows, id) ==> HasId(rows[1..], id) by {
        if HasId(rows, id) {
          var k :| 0 <= k < |rows| && rows[k].id == id;
          assert rows[1..][k - 1].id == id;
        }
      }
      n
  }

  /** Some item uses the value in the table's column (the `.limit(1)` query
      finds a row). */
  predicate InUse(items: seq<Item>, kind: Kind, value: string)
  {
    exists k :: 0 <= k < |items| && UsedIn(items[k], kind) == value
  }

  /** `.update({ name, description }).eq('id', id)`. */
  function UpdateRef(rows: seq<RefRow>, id: string, name: string, description: string): (r: seq<RefRow>)
    ensures |r| == |rows|
    ensures forall k :: 0 <= k < |rows| ==> r[k].id == rows[k].id && r[k].createdBy == rows[k].createdBy
    ensures forall k :: 0 <= k < |rows| && rows[k].id == id ==> r[k].name == name && r[k].description == description
    ensures forall k :: 0 <= k < |rows| && rows[k].id != id ==> r[k] == rows[k]
  {
    if rows == [] then []
    else
      var first := if rows[0].id == id then rows[0].(name := name, description := description) else rows[0];
      [first] + UpdateRef(rows[1..], id, name, description)
  }

  /** `.delete().eq('id', id)`. */
  function RemoveRef(rows: seq<RefRow>, id: string): seq<RefRow>
  {
    if rows == [] then [] else (if rows[0].id != id then [rows[0]] else []) + RemoveRef(rows[1..], id)
  }

  lemma {:induction false} RemoveRefMembership(rows: seq<RefRow>, id: string, x: RefRow)
    ensures x in RemoveRef(rows, id) <==> x in rows && x.id != id
  {
    if rows != [] {
      RemoveRefMembership(rows[1..], id, x);
      assert rows == [rows[0]] + rows[1..];
    }
  }

  /** Deleting keeps the ids unique and drops the id from the table. */
  lemma {:induction false} RemoveRefUnique(rows: seq<RefRow>, id: string)
    requires UniqueRefIds(rows)
    ensures UniqueRefIds(RemoveRef(rows, id))
    ensures !HasId(RemoveRef(rows, id), id)
  {
    if rows != [] {
      RemoveRefUnique(rows[1..], id);
      var tail := RemoveRef(rows[1..], id);
      forall x | x in tail
        ensures x.id != rows[0].id
      {
        RemoveRefMembership(rows[1..], id, x);
        var m :| 0 <= m < |rows[1..]| && rows[1..][m] == x;
        assert rows[m + 1] == x;
      }
      var r := RemoveRef(rows, id);
      if rows[0].id != id {
        assert r == [rows[0]] + tail;
        forall i, j | 0 <= i < j < |r|
          ensures r[i].id != r[j].id
        {
          if i == 0 {
            assert r[j] == tail[j - 1] && r[j] in tail;
          } else {
            assert r[i] == tail[i - 1] && r[j] == tail[j - 1];
          }
        }
        forall k | 0 <= k < |r|
          ensures r[k].id != id
        {
          if k > 0 {
            assert r[k] == tail[k - 1];
          }
        }
      } else {
        assert r == tail;
      }
    }
  }

  /** Renaming keeps the ids unique. */
  lemma UpdateRefUnique(rows: seq<RefRow>, id: string, name: string, description: string)
    requires UniqueRefIds(rows)
    ensures UniqueRefIds(UpdateRef(rows, id, name, description))
  {
  }

  // ---------------------------------------------------------------------
  // The store and the handlers

  class Store {
    var profiles: seq<Profile>
    var items: seq<Item>
    var locations: seq<RefRow>
    var categories: seq<RefRow>

    /** The primary keys. */
    predicate Valid()
      reads this
    {
      UniqueIds(profiles) && UniqueRefIds(locations) && UniqueRefIds(categories)
    }

    constructor (profiles: seq<Profile>, items: seq<Item>, locations: seq<RefRow>, categories: seq<RefRow>)
      requires UniqueIds(profiles) && UniqueRefIds(locations) && UniqueRefIds(categories)
      ensures Valid()
      ensures this.profiles == profiles && this.items == items
      ensures this.locations == locations && this.categories == categories
    {
      this.profiles := profiles;
      this.items := items;
      this.locations := locations;
      this.categories := categories;
    }

    function Table(kind: Kind): seq<RefRow>
      reads this
    {
      match kind
      case Locations => locations
      case Categories => categories
    }

    method SetTable(kind: Kind, rows: seq<RefRow>)
      modifies this`locations, this`categories
      ensures Table(kind) == rows
      ensures kind == Locations ==> categories == old(categories)
      ensures kind == Categories ==> locations == old(locations)
    {
      match kind
      case Locations => locations := rows;
      case Categories => categories := rows;
    }

    /** The manage-locations / manage-categories handler. `newId` is the id
        the database would give an inserted row; an id already in the table
        makes the insert fail. */
    method Manage(kind: Kind, user: Option<User>, param: Option<string>, body: Option<Body>, newId: string)
      returns (resp: Response)
      requires Valid()
      modifies this`locations, this`categories
      ensures Valid()
      ensures kind == Locations ==> categories == old(categories)
      ensures kind == Categories ==> locations == old(locations)
      // authentication and the admin gate come first
      ensures user.None? ==> resp == NOT_AUTHENTICATED && Table(kind) == old(Table(kind))
      ensures user.Some? && IsWrite(ActionOf(param)) && RoleOf(profiles, user.value.id).None? ==>
        resp == THROWN && Table(kind) == old(Table(kind))
      ensures resp.status == 403 <==>
        user.Some? && IsWrite(ActionOf(param)) && RoleOf(profiles, user.value.id).Some?
        && RoleOf(profiles, user.value.id) != Some(ADMIN)
      ensures resp.status == 403 ==>
        resp.payload == Error("Only admins can manage " + Plural(kind) + ".") && Table(kind) == old(Table(kind))
      // what a request that passes the gate does
      ensures user.Some? && ActionOf(param) == "list" ==>
        resp == Response(200, Rows(Sorting.SortBy(old(Table(kind)), RefName))) && Table(kind) == old(Table(kind))
      ensures user.Some? && !IsWrite(ActionOf(param)) && ActionOf(param) != "list" ==>
        resp == INVALID_ACTION && Table(kind) == old(Table(kind))
      ensures Gate(user, profiles, true, "").None? && IsWrite(ActionOf(param)) && body.None? ==>
        resp == THROWN && Table(kind) == old(Table(kind))
      ensures Gate(user, profiles, true, "").None? && ActionOf(param) == "create" && body.Some? ==>
        if HasId(old(Table(kind)), newId) then resp == THROWN && Table(kind) == old(Table(kind))
        else
          var row := RefRow(newId, body.value.name, body.value.description, user.value.id);
          resp == Response(201, Row(row)) && Table(kind) == old(Table(kind)) + [row]
      ensures Gate(user, profiles, true, "").None? && ActionOf(param) == "update" && body.Some? ==>
        Table(kind) == UpdateRef(old(Table(kind)), body.value.id, body.value.name, body.value.description)
        && (resp.status == 200 <==> HasId(old(Table(kind)), body.value.id))
        && (resp.status != 200 ==> resp == THROWN && Table(kind) == old(Table(kind)))
        && (resp.status == 200 ==>
              exists k :: 0 <= k < |old(Table(kind))| && old(Table(kind))[k].id == body.value.id
                && resp == Response(200, Row(old(Table(kind))[k].(name := body.value.name, description := body.value.description))))
      ensures Gate(user, profiles, true, "").None? && ActionOf(param) == "delete" && body.Some? ==>
        if InUse(items, kind, ProbeName(old(Table(kind)), body.value.id)) then
          resp == Response(400, Error("Cannot delete " + Singular(kind) + " that is in use by inventory items"))
          && Table(kind) == old(Table(kind))
        else
          resp == Response(200, Message(Title(kind) + " deleted successfully"))
          && Table(kind) == RemoveRef(old(Table(kind)), body.value.id)
    {
      var action := ActionOf(param);
      var gate := Gate(user, profiles, IsWrite(action), "Only admins can manage " + Plural(kind) + ".");
      if gate.Some? {
        return gate.value;
      }
      if action == "list" {
        return Response(200, Rows(Sorting.SortBy(Table(kind), RefName)));
      } else if IsWrite(action) {
        if body.None? {
          return THROWN;
        }
        resp := Write(kind, action, user.value.id, body.value, newId);
      } else {
        return INVALID_ACTION;
      }
    }

    /** The create, update and delete branches of Manage, once the request
        has passed the gate and its body has been read. */
    method Write(kind: Kind, action: string, userId: string, body: Body, newId: string)
      returns (resp: Response)
      requires Valid() && IsWrite(action)
      modifies this`locations, this`categories
      ensures Valid()
      ensures kind == Locations ==> categories == old(categories)
      ensures kind == Categories ==> locations == old(locations)
      ensures resp.status != 403
      ensures action == "create" ==>
        if HasId(old(Table(kind)), newId) then resp == THROWN && Table(kind) == old(Table(kind))
        else
          var row := RefRow(newId, body.name, body.description, userId);
          resp == Response(201, Row(row)) && Table(kind) == old(Table(kind)) + [row]
      ensures action == "update" ==>
        Table(kind) == UpdateRef(old(Table(kind)), body.id, body.name, body.description)
        && (resp.status == 200 <==> HasId(old(Table(kind)), body.id))
        && (resp.status != 200 ==> resp == THROWN && Table(kind) == old(Table(kind)))
        && (resp.status == 200 ==>
              exists k :: 0 <= k < |old(Table(kind))| && old(Table(kind))[k].id == body.id
                && resp == Response(200, Row(old(Table(kind))[k].(name := body.name, description := body.description))))
      ensures action == "delete" ==>
        if InUse(items, kind, ProbeName(old(Table(kind)), body.id)) then
          resp == Response(400, Error("Cannot delete " + Singular(kind) + " that is in use by inventory items"))
          && Table(kind) == old(Table(kind))
        else
          resp == Response(200, Message(Title(kind) + " deleted successfully"))
          && Table(kind) == RemoveRef(old(Table(kind)), body.id)
    {
      var rows := Table(kind);
      if action == "create" {
        if HasId(rows, newId) {
          return THROWN;
        }
        var row := RefRow(newId, body.name, body.description, userId);
        SetTable(kind, rows + [row]);
        return Response(201, Row(row));
      } else if action == "update" {
        UpdateRefUnique(rows, body.id, body.name, body.description);
        var updated := UpdateRef(rows, body.id, body.name, body.description);
        SetTable(kind, updated);
        if !HasId(rows, body.id) {
          // `.single()` finds no row: nothing was written, and it throws
          assert updated == rows;
          return THROWN;
        }
        var k :| 0 <= k < |rows| && rows[k].id == body.id;
        assert updated[k] == rows[k].(name := body.name, description := body.description);
        return Response(200, Row(updated[k]));
      } else {
        var id := body.id;
        if InUse(items, kind, ProbeName(rows, id)) {
          return Response(400, Error("Cannot delete " + Singular(kind) + " that is in use by inventory items"));
        }
        RemoveRefUnique(rows, id);
        SetTable(kind, RemoveRef(rows, id));
        return Response(200, Message(Title(kind) + " deleted successfully"));
      }
    }

    method ManageLocations(user: Option<User>, param: Option<string>, body: Option<Body>, newId: string)
      returns (resp: Response)
      requires Valid()
      modifies this`locations, this`categories
      ensures Valid() && categories == old(categories)
      // authentication and the admin gate come first
      ensures user.None? ==> resp == NOT_AUTHENTICATED && locations == old(locations)
      ensures user.Some? && IsWrite(ActionOf(param)) && RoleOf(profiles, user.value.id).None? ==>
        resp == THROWN && locations == old(locations)
      ensures resp.status == 403 <==>
        user.Some? && IsWrite(ActionOf(param)) && RoleOf(profiles, user.value.id).Some?
        && RoleOf(profiles, user.value.id) != Some(ADMIN)
      ensures resp.status == 403 ==>
        resp.payload == Error("Only admins can manage " + Plural(Locations) + ".") && locations == old(locations)
      // what a request that passes the gate does
      ensures user.Some? && ActionOf(param) == "list" ==>
        resp == Response(200, Rows(Sorting.SortBy(old(locations), RefName))) && locations == old(locations)
      ensures user.Some? && !IsWrite(ActionOf(param)) && ActionOf(param) != "list" ==>
        resp == INVALID_ACTION && locations == old(locations)
      ensures Gate(user, profiles, true, "").None? && IsWrite(ActionOf(param)) && body.None? ==>
        resp == THROWN && locations == old(locations)
      ensures Gate(user, profiles, true, "").None? && ActionOf(param) == "create" && body.Some? ==>
        if HasId(old(locations), newId) then resp == THROWN && locations == old(locations)
        else
          var row := RefRow(newId, body.value.name, body.value.description, user.value.id);
          resp == Response(201, Row(row)) && locations == old(locations) + [row]
      ensures Gate(user, profiles, true, "").None? && ActionOf(param) == "update" && body.Some? ==>
        locations == UpdateRef(old(locations), body.value.id, body.value.name, body.value.description)
        && (resp.status == 200 <==> HasId(old(locations), body.value.id))
        && (resp.status != 200 ==> resp == THROWN && locations == old(locations))
        && (resp.status == 200 ==>
              exists k :: 0 <= k < |old(locations)| && old(locations)[k].id == body.value.id
                && resp == Response(200, Row(old(locations)[k].(name := body.value.name, description := body.value.description))))
      ensures Gate(user, profiles, true, "").None? && ActionOf(param) == "delete" && body.Some? ==>
        if InUse(items, Locations, ProbeName(old(locations), body.value.id)) then
          resp == Response(400, Error("Cannot delete " + Singular(Locations) + " that is in use by inventory items"))
          && locations == old(locations)
        else
          resp == Response(200, Message(Title(Locations) + " deleted successfully"))
          && locations == RemoveRef(old(locations), body.value.id)
    {
      resp := Manage(Locations, user, param, body, newId);
    }

    method ManageCategories(user: Option<User>, param: Option<string>, body: Option<Body>, newId: string)
      returns (resp: Response)
      requires Valid()
      modifies this`locations, this`categories
      ensures Valid() && locations == old(locations)
      // authentication and the admin gate come first
      ensures user.None? ==> resp == NOT_AUTHENTICATED && categories == old(categories)
      ensures user.Some? && IsWrite(ActionOf(param)) && RoleOf(profiles, user.value.id).None? ==>
        resp == THROWN && categories == old(categories)
      ensures resp.status == 403 <==>
        user.Some? && IsWrite(ActionOf(param)) && RoleOf(profiles, user.value.id).Some?
        && RoleOf(profiles, user.value.id) != Some(ADMIN)
      ensures resp.status == 403 ==>
        resp.payload == Error("Only admins can manage " + Plural(Categories) + ".") && categories == old(categories)
      // what a request that passes the gate does
      ensures user.Some? && ActionOf(param) == "list" ==>
        resp == Response(200, Rows(Sorting.SortBy(old(categories), RefName))) && categories == old(categories)
      ensures user.Some? && !IsWrite(ActionOf(param)) && ActionOf(param) != "list" ==>
        resp == INVALID_ACTION && categories == old(categories)
      ensures Gate(user, profiles, true, "").None? && IsWrite(ActionOf(param)) && body.None? ==>
        resp == THROWN && categories == old(categories)
      ensures Gate(user, profiles, true, "").None? && ActionOf(param) == "create" && body.Some? ==>
        if HasId(old(categories), newId) then resp == THROWN && categories == old(categories)
        else
          var row := RefRow(newId, body.value.name, body.value.description, user.value.id);
          resp == Response(201, Row(row)) && categories == old(categories) + [row]
      ensures Gate(user, profiles, true, "").None? && ActionOf(param) == "update" && body.Some? ==>
        categories == UpdateRef(old(categories), body.value.id, body.value.name, body.value.description)
        && (resp.status == 200 <==> HasId(old(categories), body.value.id))
        && (resp.status != 200 ==> resp == THROWN && categories == old(categories))
        && (resp.status == 200 ==>
              exists k :: 0 <= k < |old(categories)| && old(categories)[k].id == body.value.id
                && resp == Response(200, Row(old(categories)[k].(name := body.value.name, description := body.value.description))))
      ensures Gate(user, profiles, true, "").None? && ActionOf(param) == "delete" && body.Some? ==>
        if InUse(items, Categories, ProbeName(old(categories), body.value.id)) then
          resp == Response(400, Error("Cannot delete " + Singular(Categories) + " that is in use by inventory items"))
          && categories == old(categories)
        else
          resp == Response(200, Message(Title(Categories) + " deleted successfully"))
          && categories == RemoveRef(old(categories), body.value.id)
    {
      resp := Manage(Categories, user, param, body, newId);
    }

    /** The set-user-role handler. The body is read before anything else, so
        a body that does not parse is a 400 even without a user. There is no
        check that the target is not the requester. */
    method SetUserRole(user: Option<User>, body: Option<RoleBody>) returns (resp: Response)
      requires Valid()
      modifies this`profiles
      ensures Valid()
      ensures body.None? ==> resp == THROWN && profiles == old(profiles)
      ensures body.Some? && user.None? ==> resp == NOT_AUTHENTICATED && profiles == old(profiles)
      ensures body.Some? && user.Some? && RoleOf(old(profiles), user.value.id).None? ==>
        resp == THROWN && profiles == old(profiles)
      ensures resp.status == 403 <==>
        body.Some? && user.Some? && RoleOf(old(profiles), user.value.id).Some?
        && RoleOf(old(profiles), user.value.id) != Some(ADMIN)
      ensures resp.status == 403 ==> resp.payload == Error("Only admins can change roles.") && profiles == old(profiles)
      ensures body.Some? && Gate(user, old(profiles), true, "").None? ==>
        resp == Response(200, Message("User role updated successfully."))
        && profiles == SetRole(old(profiles), body.value.userId, body.value.role)
    {
      if body.None? {
        return THROWN;
      }
      var gate := Gate(user, profiles, true, "Only admins can change roles.");
      if gate.Some? {
        return gate.value;
      }
      profiles := SetRole(profiles, body.value.userId, body.value.role);
      return Response(200, Message("User role updated successfully."));
    }
  }

  /** The server lets an admin take away their own admin role: the request
      passes the gate and afterwards the requester is no longer an admin. The
      admin page's guard is the only thing that refuses it. */
  lemma ServerAllowsSelfDemotion(profiles: seq<Profile>, requester: User, k: nat)
    requires UniqueIds(profiles) && k < |profiles|
    requires profiles[k].id == requester.id && profiles[k].role == ADMIN
    ensures Gate(Some(requester), profiles, true, "").None?
    ensures RoleOf(SetRole(profiles, requester.id, "user"), requester.id) == Some("user")
  {
    RoleOfUnique(profiles, k);
    SetRoleEffect(profiles, requester.id, "user", requester.id + "x");
  }
}
