/** The item router (`/v1/fono_items`): create, list, read, update and
    delete items, each one scoped to its owner. Every read, update and delete
    filters by `id AND user_id`, so an item that belongs to someone else
    looks exactly like one that does not exist.

    The `fono_items` table is a sequence of rows in insertion order; the `:id`
    path parameter is taken as already parsed to a number. `now` stands for
    `CURRENT_TIMESTAMP`. */
module FonoItems {
  import opened Http
  import opened Seqs

  /** A row of `fono_items`; NULL columns are `None`. */
  datatype ItemRow = ItemRow(
    id: nat,
    userId: string,
    title: Option<string>,
    description: Option<string>,
    createdAt: int,
    updatedAt: int)

  /** The columns every handler returns: the row without `user_id`. */
  datatype ItemView = ItemView(
    id: nat,
    title: Option<string>,
    description: Option<string>,
    createdAt: int,
    updatedAt: int)

  function View(r: ItemRow): ItemView
  {
    ItemView(r.id, r.title, r.description, r.createdAt, r.updatedAt)
  }

  function Views(rows: seq<ItemRow>): (r: seq<ItemView>)
    ensures |r| == |rows|
    ensures forall i :: 0 <= i < |rows| ==> r[i] == View(rows[i])
  {
    seq(|rows|, i requires 0 <= i < |rows| => View(rows[i]))
  }

  /** `WHERE id = $1 AND user_id = $2`. */
  predicate Owned(r: ItemRow, id: nat, user: string)
  {
    r.id == id && r.userId == user
  }

  function OwnerIs(user: string): ItemRow -> bool
  {
    (r: ItemRow) => r.userId == user
  }

  function NotOwned(id: nat, user: string): ItemRow -> bool
  {
    (r: ItemRow) => !Owned(r, id, user)
  }

  /** The first row the owner-scoped WHERE matches, if any. */
  function FindOwned(rows: seq<ItemRow>, id: nat, user: string): (k: Option<nat>)
    ensures k.Some? ==> k.value < |rows| && Owned(rows[k.value], id, user)
    ensures k.Some? ==> forall i :: 0 <= i < k.value ==> !Owned(rows[i], id, user)
    ensures k.None? ==> forall i :: 0 <= i < |rows| ==> !Owned(rows[i], id, user)
  {
    if rows == [] then None
    else if Owned(rows[0], id, user) then Some(0)
    else
      match FindOwned(rows[1..], id, user)
      case None => None
      case Some(k) => Some(k + 1)
  }

  predicate UniqueIds(rows: seq<ItemRow>)
  {
    forall i, j :: 0 <= i < |rows| && 0 <= j < |rows| && rows[i].id == rows[j].id ==> i == j
  }

  /** "Not yours" and "does not exist" are the same to the owner filter: an
      item that exists but belongs to another user is not found. */
  lemma ForeignItemNotFound(rows: seq<ItemRow>, k: nat, user: string)
    requires UniqueIds(rows)
    requires k < |rows| && rows[k].userId != user
    ensures FindOwned(rows, rows[k].id, user).None?
  {
  }

  /** An item appended with a fresh id is the one its owner then finds under
      that id. */
  lemma {:induction false} CreatedItemIsFound(rows: seq<ItemRow>, r: ItemRow)
    requires forall x :: x in rows ==> x.id != r.id
    ensures FindOwned(rows + [r], r.id, r.userId) == Some(|rows|)
  {
    if rows != [] {
      assert (rows + [r])[1..] == rows[1..] + [r];
      CreatedItemIsFound(rows[1..], r);
    }
  }

  /** `ORDER BY created_at DESC`. */
  predicate CreatedDesc(a: ItemRow, b: ItemRow)
  {
    a.createdAt >= b.createdAt
  }

  lemma CreatedDescIsPreorder()
    ensures TotalPreorder(CreatedDesc)
  {
  }

  /** What a successful PUT does to the row it matches: a provided field
      (a string or an explicit null) is written, an undefined one is kept,
      and `updated_at` is set. */
  function Patched(r: ItemRow, title: Field, description: Field, now: int): (r': ItemRow)
    ensures r'.id == r.id && r'.userId == r.userId && r'.createdAt == r.createdAt && r'.updatedAt == now
    ensures r'.title == if title.Undefined? then r.title else Bound(title)
    ensures r'.description == if description.Undefined? then r.description else Bound(description)
  {
    ItemRow(r.id, r.userId,
            if title.Undefined? then r.title else Bound(title),
            if description.Undefined? then r.description else Bound(description),
            r.createdAt, now)
  }

  /** The table after the owner-scoped UPDATE: every matching row patched. */
  function PatchOwned(rows: seq<ItemRow>, id: nat, user: string, title: Field, description: Field, now: int): seq<ItemRow>
  {
    seq(|rows|, i requires 0 <= i < |rows| =>
      if Owned(rows[i], id, user) then Patched(rows[i], title, description, now) else rows[i])
  }

  /** With unique ids the UPDATE touches the one row its owner filter finds,
      and no row at all when there is none. */
  lemma PatchOwnedTouchesOnlyTarget(rows: seq<ItemRow>, id: nat, user: string, title: Field, description: Field, now: int)
    requires UniqueIds(rows)
    ensures FindOwned(rows, id, user).None? ==> PatchOwned(rows, id, user, title, description, now) == rows
    ensures FindOwned(rows, id, user).Some? ==>
      var k := FindOwned(rows, id, user).value;
      PatchOwned(rows, id, user, title, description, now) == rows[k := Patched(rows[k], title, description, now)]
  {
  }

  /** With unique ids the DELETE removes exactly the row its owner filter
      finds, and nothing when there is none. */
  lemma DeleteRemovesOnlyTarget(rows: seq<ItemRow>, id: nat, user: string)
    requires UniqueIds(rows)
    ensures FindOwned(rows, id, user).None? ==> Filter(rows, NotOwned(id, user)) == rows
    ensures FindOwned(rows, id, user).Some? ==>
      var k := FindOwned(rows, id, user).value;
      Filter(rows, NotOwned(id, user)) == rows[..k] + rows[k + 1..]
  {
    match FindOwned(rows, id, user)
    case None =>
      FilterKeepsAll(rows, NotOwned(id, user));
    case Some(k) =>
      FilterAllBut(rows, NotOwned(id, user), k);
  }

  /** Removing one row keeps the ids unique and adds no row. */
  lemma UniqueIdsAfterRemove(rows: seq<ItemRow>, k: nat)
    requires UniqueIds(rows) && k < |rows|
    ensures UniqueIds(rows[..k] + rows[k + 1..])
  {
    var r := rows[..k] + rows[k + 1..];
    assert forall i :: 0 <= i < |r| ==> r[i] == rows[if i < k then i else i + 1];
  }

  // ----- the PUT handler's SET-clause builder -----

  /** A query parameter: the path id, or a text or NULL value. */
  datatype Param = PId(n: nat) | PText(s: string) | PNull

  /** One element of `setClauses`: the fixed timestamp clause, or
      `<column> = $<placeholder>`. */
  datatype SetClause = TouchUpdatedAt | Assign(column: string, placeholder: nat)

  /** The body members PUT may update, in the order the handler tests them. */
  const UpdatableColumns: seq<string> := ["title", "description"]

  /** The parameter pushed for a provided body member: the SQL value
      `Bound` gives it, as text or NULL. `Param` also holds the path id,
      which is a number, so it is a type of its own. */
  function ParamOf(f: Field): Param
  {
    match Bound(f)
    case Some(s) => PText(s)
    case None => PNull
  }

  /** The binding a body member asks for: none when undefined. */
  function Binding(f: Field): Option<Param>
  {
    if f.Undefined? then None else Some(ParamOf(f))
  }

  /** The value the clauses assign to `column`, read through the clause's
      placeholder from `values` (`$n` is `values[n - 1]`). */
  function Assigned(clauses: seq<SetClause>, values: seq<Param>, column: string): Option<Param>
  {
    if clauses == [] then None
    else
      var c := clauses[|clauses| - 1];
      if c.Assign? && c.column == column && 1 <= c.placeholder <= |values| then Some(values[c.placeholder - 1])
      else Assigned(clauses[..|clauses| - 1], values, column)
  }

  /** Pushing a value after every placeholder already in use leaves what
      the clauses assign unchanged. */
  lemma {:induction false} AssignedExtend(clauses: seq<SetClause>, values: seq<Param>, v: Param, column: string)
    requires forall k :: 0 <= k < |clauses| && clauses[k].Assign? ==> clauses[k].placeholder <= |values|
    ensures Assigned(clauses, values + [v], column) == Assigned(clauses, values, column)
  {
    if clauses != [] {
      AssignedExtend(clauses[..|clauses| - 1], values, v, column);
    }
  }

  function CountProvided(fields: seq<Field>): nat
  {
    if fields == [] then 0
    else CountProvided(fields[..|fields| - 1]) + (if fields[|fields| - 1].Undefined? then 0 else 1)
  }

  /** The PUT handler's step-by-step build of `setClauses` and `values`:
      the timestamp clause comes first; the k-th added clause carries `$n`
      where n is the 1-based position of its value in `values`, from 3 on;
      `values` holds the id, the user and one value per provided field; and
      each column is assigned exactly the value its body member asks for. */
  method BuildUpdate(id: nat, userId: string, fields: seq<Field>) returns (setClauses: seq<SetClause>, values: seq<Param>)
    requires |fields| == |UpdatableColumns|
    ensures |setClauses| >= 1 && setClauses[0] == TouchUpdatedAt
    ensures |values| == |setClauses| + 1
    ensures values[0] == PId(id) && values[1] == PText(userId)
    ensures forall k :: 1 <= k < |setClauses| ==> setClauses[k].Assign? && setClauses[k].placeholder == k + 2
    ensures |values| == 2 + CountProvided(fields)
    ensures Assigned(setClauses, values, "title") == Binding(fields[0])
    ensures Assigned(setClauses, values, "description") == Binding(fields[1])
  {
    setClauses := [TouchUpdatedAt];
    values := [PId(id), PText(userId)];
    var paramIndex := 3;
    for c := 0 to |UpdatableColumns|
      invariant |setClauses| >= 1 && setClauses[0] == TouchUpdatedAt
      invariant |values| == |setClauses| + 1
      invariant paramIndex == |values| + 1
      invariant values[0] == PId(id) && values[1] == PText(userId)
      invariant forall k :: 1 <= k < |setClauses| ==> setClauses[k].Assign? && setClauses[k].placeholder == k + 2
      invariant forall k :: 1 <= k < |setClauses| ==> setClauses[k].column in UpdatableColumns[..c]
      invariant |values| == 2 + CountProvided(fields[..c])
      invariant forall d :: 0 <= d < c ==> Assigned(setClauses, values, UpdatableColumns[d]) == Binding(fields[d])
      invariant forall d :: c <= d < |UpdatableColumns| ==> Assigned(setClauses, values, UpdatableColumns[d]) == None
    {
      assert fields[..c + 1][..c] == fields[..c];
      if !fields[c].Undefined? {
        var clause := Assign(UpdatableColumns[c], paramIndex);
        forall d | 0 <= d < |UpdatableColumns|
          ensures Assigned(setClauses, values + [ParamOf(fields[c])], UpdatableColumns[d])
               == Assigned(setClauses, values, UpdatableColumns[d])
        {
          AssignedExtend(setClauses, values, ParamOf(fields[c]), UpdatableColumns[d]);
        }
        assert (setClauses + [clause])[..|setClauses|] == setClauses;
        setClauses := setClauses + [clause];
        paramIndex := paramIndex + 1;
        values := values + [ParamOf(fields[c])];
      }
    }
    assert fields[..|UpdatableColumns|] == fields;
    assert UpdatableColumns[0] == "title" && UpdatableColumns[1] == "description";
  }

  /** The column value a bound parameter writes. `BuildUpdate` never binds
      the path id to a column (its placeholders start at `$3`), so that case
      keeps the old value. */
  function ColumnValue(current: Option<string>, binding: Option<Param>): Option<string>
  {
    match binding
    case None => current
    case Some(PText(s)) => Some(s)
    case Some(PNull) => None
    case Some(PId(_)) => current
  }

  /** What the UPDATE statement built from `clauses` and `values` does to a
      matching row. */
  function ApplySet(r: ItemRow, clauses: seq<SetClause>, values: seq<Param>, now: int): ItemRow
  {
    ItemRow(r.id, r.userId,
            ColumnValue(r.title, Assigned(clauses, values, "title")),
            ColumnValue(r.description, Assigned(clauses, values, "description")),
            r.createdAt,
            if TouchUpdatedAt in clauses then now else r.updatedAt)
  }

  /** The `fono_items` table. `nextId` is the id sequence's next value. */
  class ItemTable {
    var rows: seq<ItemRow>
    var nextId: nat

    ghost predicate Valid()
      reads this
    {
      && UniqueIds(rows)
      && (forall i :: 0 <= i < |rows| ==> rows[i].id < nextId)
    }

    constructor ()
      ensures Valid() && rows == []
    {
      rows := [];
      nextId := 1;
    }

    /** GET `/`: 401 without a user; otherwise exactly the caller's items,
        newest first (equal timestamps in any order). */
    method List(user: Option<string>) returns (reply: Reply<seq<ItemView>>, ghost fetched: seq<ItemRow>)
      ensures !Present(user) ==> reply == Err(401, "User not authenticated")
      ensures Present(user) ==>
        && reply == Ok(200, Views(fetched))
        && SortedBy(fetched, CreatedDesc)
        && multiset(fetched) == multiset(Filter(rows, OwnerIs(user.value)))
    {
      if !Present(user) {
        reply, fetched := Err(401, "User not authenticated"), [];
        return;
      }
      var selected := Filter(rows, OwnerIs(user.value));
      var ordered := SortBy(selected, CreatedDesc);
      CreatedDescIsPreorder();
      SortBySorted(selected, CreatedDesc);
      fetched := ordered;
      reply := Ok(200, Views(ordered));
    }

    /** POST `/`: 401 without a user, 400 without a non-empty title;
        otherwise one row owned by the caller is appended and returned with
        201. */
    method Create(user: Option<string>, title: Field, description: Field, now: int) returns (reply: Reply<ItemView>)
      requires Valid()
      modifies this
      ensures Valid()
      ensures !Present(user) ==> reply == Err(401, "User not authenticated") && rows == old(rows)
      ensures Present(user) && !Truthy(title) ==> reply == Err(400, "Title is required") && rows == old(rows)
      ensures Present(user) && Truthy(title) ==>
        && |rows| == |old(rows)| + 1
        && rows[..|old(rows)|] == old(rows)
        && var r := rows[|old(rows)|];
           && r.userId == user.value
           && r.title == Some(title.s)
           && r.description == Bound(description)
           && r.createdAt == now && r.updatedAt == now
           && (forall x :: x in old(rows) ==> x.id != r.id)
           && reply == Ok(201, View(r))
    {
      if !Present(user) {
        reply := Err(401, "User not authenticated");
        return;
      }
      if !Truthy(title) {
        reply := Err(400, "Title is required");
        return;
      }
      var r := ItemRow(nextId, user.value, Some(title.s), Bound(description), now, now);
      rows := rows + [r];
      nextId := nextId + 1;
      reply := Ok(201, View(r));
    }

    /** GET `/:id`: 401 without a user; 404 unless the caller owns an item
        with that id; otherwise that item. */
    method Get(user: Option<string>, id: nat) returns (reply: Reply<ItemView>)
      ensures !Present(user) ==> reply == Err(401, "User not authenticated")
      ensures Present(user) && FindOwned(rows, id, user.value).None? ==>
        reply == Err(404, "Fono item not found or not authorised")
      ensures Present(user) && FindOwned(rows, id, user.value).Some? ==>
        reply == Ok(200, View(rows[FindOwned(rows, id, user.value).value]))
    {
      if !Present(user) {
        reply := Err(401, "User not authenticated");
        return;
      }
      var k := FindOwned(rows, id, user.value);
      if k.None? {
        reply := Err(404, "Fono item not found or not authorised");
      } else {
        reply := Ok(200, View(rows[k.value]));
      }
    }

    /** PUT `/:id`: 401 without a user, 400 when both fields are undefined;
        otherwise the owner-scoped UPDATE built by `BuildUpdate` runs, which
        patches only the provided fields of the caller's item, and 404 is
        returned when there was none. */
    method Update(user: Option<string>, id: nat, title: Field, description: Field, now: int) returns (reply: Reply<ItemView>)
      requires Valid()
      modifies this
      ensures Valid()
      ensures !Present(user) ==> reply == Err(401, "User not authenticated") && rows == old(rows)
      ensures Present(user) && title.Undefined? && description.Undefined? ==>
        reply == Err(400, "No fields to update provided") && rows == old(rows)
      ensures Present(user) && !(title.Undefined? && description.Undefined?) ==>
        && rows == PatchOwned(old(rows), id, user.value, title, description, now)
        && (FindOwned(old(rows), id, user.value).None? ==>
              reply == Err(404, "Fono item not found or not authorised") && rows == old(rows))
        && (FindOwned(old(rows), id, user.value).Some? ==>
              reply == Ok(200, View(rows[FindOwned(old(rows), id, user.value).value])))
    {
      if !Present(user) {
        reply := Err(401, "User not authenticated");
        return;
      }
      if title.Undefined? && description.Undefined? {
        reply := Err(400, "No fields to update provided");
        return;
      }
      var setClauses, values := BuildUpdate(id, user.value, [title, description]);
      assert Assigned(setClauses, values, "title") == Binding(title);
      assert Assigned(setClauses, values, "description") == Binding(description);
      var current := rows;
      var k := FindOwned(current, id, user.value);
      rows := seq(|current|, i requires 0 <= i < |current| =>
        if Owned(current[i], id, user.value) then ApplySet(current[i], setClauses, values, now) else current[i]);
      assert rows == PatchOwned(current, id, user.value, title, description, now);
      PatchOwnedTouchesOnlyTarget(old(rows), id, user.value, title, description, now);
      if k.None? {
        reply := Err(404, "Fono item not found or not authorised");
      } else {
        reply := Ok(200, View(rows[k.value]));
      }
    }

    /** DELETE `/:id`: 401 without a user; 404 with the table unchanged
        unless the caller owns an item with that id; otherwise exactly that
        row is removed and 204 is returned. */
    method Delete(user: Option<string>, id: nat) returns (reply: Reply<()>)
      requires Valid()
      modifies this
      ensures Valid()
      ensures !Present(user) ==> reply == Err(401, "User not authenticated") && rows == old(rows)
      ensures Present(user) && FindOwned(old(rows), id, user.value).None? ==>
        reply == Err(404, "Fono item not found or not authorized") && rows == old(rows)
      ensures Present(user) && FindOwned(old(rows), id, user.value).Some? ==>
        var k := FindOwned(old(rows), id, user.value).value;
        reply == Ok(204, ()) && rows == old(rows)[..k] + old(rows)[k + 1..]
    {
      if !Present(user) {
        reply := Err(401, "User not authenticated");
        return;
      }
      var current := rows;
      var k := FindOwned(current, id, user.value);
      DeleteRemovesOnlyTarget(current, id, user.value);
      rows := Filter(current, NotOwned(id, user.value));
      if k.None? {
        reply := Err(404, "Fono item not found or not authorized");
      } else {
        UniqueIdsAfterRemove(current, k.value);
        reply := Ok(204, ());
      }
    }
  }
}
