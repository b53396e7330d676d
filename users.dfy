/**
 * The two mutations of convex/users.js over the `users` table: `CreateUser`,
 * a find-or-insert keyed by the trimmed email, and `UpdateUserToken`, a
 * partial patch of one record. The database is a `UserTable` object whose
 * rows are kept in the order they were inserted, which is the order a Convex
 * query returns them in.
 */
module Users {
  import opened Wrappers
  import opened Strings

  /** The credit of a new user. */
  const StartingCredit: int := 50000

  /** A document of the `users` table, without its id. */
  datatype User = User(name: string, email: string, credit: int, subscriptionId: Option<string>)

  /** A document with its id. */
  datatype Row = Row(id: nat, user: User)

  /** The table's contents and the next id it will hand out. */
  datatype Table = Table(rows: seq<Row>, nextId: nat)

  /** Ids are distinct and below the next one handed out. */
  ghost predicate TableValid(t: Table) {
    && (forall i, j :: 0 <= i < j < |t.rows| ==> t.rows[i].id != t.rows[j].id)
    && (forall k :: 0 <= k < |t.rows| ==> t.rows[k].id < t.nextId)
  }

  /** No two records share an email. */
  ghost predicate UniqueEmails(rows: seq<Row>) {
    forall i, j :: 0 <= i < j < |rows| ==> rows[i].user.email != rows[j].user.email
  }

  // ---------------------------------------------------------------------------
  // The query
  // ---------------------------------------------------------------------------

  /**
   * `query('users').filter(q => q.eq(q.field('email'), email)).collect()`:
   * the records whose email is exactly `email`, in table order.
   */
  function WithEmail(rows: seq<Row>, email: string): (matches: seq<Row>)
    ensures forall r :: r in matches <==> r in rows && r.user.email == email
    ensures |matches| <= |rows|
    decreases |rows|
  {
    if rows == [] then []
    else (if rows[0].user.email == email then [rows[0]] else []) + WithEmail(rows[1..], email)
  }

  /** The first match is the earliest record with that email. */
  lemma {:induction false} FirstMatchIsEarliest(rows: seq<Row>, email: string)
    requires |WithEmail(rows, email)| > 0
    ensures exists k :: 0 <= k < |rows| && rows[k] == WithEmail(rows, email)[0]
                        && rows[k].user.email == email
                        && forall j :: 0 <= j < k ==> rows[j].user.email != email
    decreases |rows|
  {
    if rows[0].user.email != email {
      assert WithEmail(rows, email) == WithEmail(rows[1..], email);
      FirstMatchIsEarliest(rows[1..], email);
      var k :| 0 <= k < |rows[1..]| && rows[1..][k] == WithEmail(rows[1..], email)[0]
               && rows[1..][k].user.email == email
               && forall j :: 0 <= j < k ==> rows[1..][j].user.email != email;
      assert rows[k + 1] == rows[1..][k];
      forall j | 0 <= j < k + 1
        ensures rows[j].user.email != email
      {
        if j > 0 {
          assert rows[j] == rows[1..][j - 1];
        }
      }
    } else {
      assert WithEmail(rows, email)[0] == rows[0];
    }
  }

  // ---------------------------------------------------------------------------
  // CreateUser
  // ---------------------------------------------------------------------------

  /** The two validation errors. */
  datatype CreateError = NameRequired | EmailRequired

  /** An error thrown, or the record returned. */
  datatype Created = Failed(error: CreateError) | Returned(row: Row)

  /** What a call returns and the table after it. */
  datatype CreateStep = CreateStep(result: Created, table: Table)

  /** The record `CreateUser` inserts. */
  function NewUser(name: string, email: string): User {
    User(Trim(name), Trim(email), StartingCredit, None)
  }

  /** The handler of `CreateUser` on the table `t`. */
  function Create(t: Table, name: string, email: string): CreateStep {
    if Trim(name) == "" then CreateStep(Failed(NameRequired), t)
    else if Trim(email) == "" then CreateStep(Failed(EmailRequired), t)
    else
      var matches := WithEmail(t.rows, Trim(email));
      if |matches| == 0 then
        var row := Row(t.nextId, NewUser(name, email));
        CreateStep(Returned(row), Table(t.rows + [row], t.nextId + 1))
      else CreateStep(Returned(matches[0]), t)
  }

  /** A blank name, then a blank email, is an error, and the table is not touched. */
  lemma CreateRejectsBlank(t: Table, name: string, email: string)
    requires IsBlank(name) || IsBlank(email)
    ensures var step := Create(t, name, email);
            && step.table == t
            && step.result == Failed(if IsBlank(name) then NameRequired else EmailRequired)
  {
    TrimShape(name);
    TrimShape(email);
  }

  /**
   * With valid input and no record of that trimmed email, exactly one record
   * is appended: trimmed name and email, 50000 credits, no subscription, a
   * fresh id; and that record is returned.
   */
  lemma CreateInsertsNewUser(t: Table, name: string, email: string)
    requires TableValid(t)
    requires !IsBlank(name) && !IsBlank(email)
    requires forall k :: 0 <= k < |t.rows| ==> t.rows[k].user.email != Trim(email)
    ensures var step := Create(t, name, email);
            && step.result.Returned?
            && step.result.row.user == User(Trim(name), Trim(email), 50000, None)
            && (forall k :: 0 <= k < |t.rows| ==> t.rows[k].id != step.result.row.id)
            && step.table.rows == t.rows + [step.result.row]
            && TableValid(step.table)
  {
    TrimShape(name);
    TrimShape(email);
    var matches := WithEmail(t.rows, Trim(email));
    if |matches| > 0 {
      assert matches[0] in matches;
    }
  }

  /**
   * When a record has that trimmed email, the earliest such record is
   * returned as stored (its name is not updated) and nothing is inserted.
   */
  lemma CreateReturnsExisting(t: Table, name: string, email: string, k: nat)
    requires !IsBlank(name) && !IsBlank(email)
    requires k < |t.rows| && t.rows[k].user.email == Trim(email)
    requires forall j :: 0 <= j < k ==> t.rows[j].user.email != Trim(email)
    ensures Create(t, name, email) == CreateStep(Returned(t.rows[k]), t)
  {
    TrimShape(name);
    TrimShape(email);
    var matches := WithEmail(t.rows, Trim(email));
    assert t.rows[k] in matches;
    FirstMatchIsEarliest(t.rows, Trim(email));
    var m :| 0 <= m < |t.rows| && t.rows[m] == matches[0] && t.rows[m].user.email == Trim(email)
             && forall j :: 0 <= j < m ==> t.rows[j].user.email != Trim(email);
    assert m == k;
  }

  /**
   * Asking again for an email that a call has just returned, under any name
   * and with any surrounding whitespace, returns the same record and changes
   * nothing: repeated calls never create a duplicate.
   */
  lemma CreateTwiceReturnsSameUser(t: Table, name: string, email: string, name2: string, email2: string)
    requires Create(t, name, email).result.Returned?
    requires !IsBlank(name2) && Trim(email2) == Trim(email)
    ensures var first := Create(t, name, email);
            Create(first.table, name2, email2) == CreateStep(first.result, first.table)
  {
    var first := Create(t, name, email);
    TrimShape(name2);
    TrimShape(email2);
    var matches := WithEmail(t.rows, Trim(email));
    if |matches| == 0 {
      var row := first.result.row;
      var rows := first.table.rows;
      assert rows[|t.rows|] == row;
      forall j | 0 <= j < |t.rows|
        ensures rows[j].user.email != Trim(email)
      {
        assert rows[j] == t.rows[j];
        assert t.rows[j] in t.rows;
      }
      assert row.user.email == Trim(email);
      CreateReturnsExisting(first.table, name2, email2, |t.rows|);
    } else {
      FirstMatchIsEarliest(t.rows, Trim(email));
      var k :| 0 <= k < |t.rows| && t.rows[k] == matches[0] && t.rows[k].user.email == Trim(email)
               && forall j :: 0 <= j < k ==> t.rows[j].user.email != Trim(email);
      CreateReturnsExisting(t, name2, email2, k);
    }
  }

  /** A table built by `CreateUser` keeps valid ids and one record per email. */
  lemma CreateKeepsInvariants(t: Table, name: string, email: string)
    requires TableValid(t) && UniqueEmails(t.rows)
    ensures var step := Create(t, name, email);
            TableValid(step.table) && UniqueEmails(step.table.rows)
  {
    var step := Create(t, name, email);
    if step.table != t {
      var rows := step.table.rows;
      var n := |t.rows|;
      forall k | 0 <= k < n
        ensures rows[k] == t.rows[k] && rows[k].user.email != rows[n].user.email && rows[k].id != rows[n].id
      {
        assert t.rows[k] in t.rows;
        assert t.rows[k] !in WithEmail(t.rows, Trim(email));
      }
    }
  }

  // ---------------------------------------------------------------------------
  // UpdateUserToken
  // ---------------------------------------------------------------------------

  /** `patchData`: the new credit and, when present, a subscription id. */
  datatype PatchData = PatchData(credit: int, subscriptionId: Option<string>)

  /** `patchData` as built from the arguments: the order id is kept only when it is non-empty. */
  function TokenPatch(credit: int, orderId: Option<string>): (p: PatchData)
    ensures p.credit == credit
    ensures p.subscriptionId.Some? <==> (orderId.Some? && orderId.value != "")
    ensures p.subscriptionId.Some? ==> p.subscriptionId == orderId
  {
    var patchData := PatchData(credit, None);
    if orderId.Some? && orderId.value != "" then patchData.(subscriptionId := orderId) else patchData
  }

  /** A document after `patch`: the fields present in `p` replaced, the others kept. */
  function Apply(u: User, p: PatchData): User {
    u.(credit := p.credit, subscriptionId := if p.subscriptionId.Some? then p.subscriptionId else u.subscriptionId)
  }

  /** `ctx.db.patch(id, p)` on the rows. */
  function PatchRows(rows: seq<Row>, id: nat, p: PatchData): seq<Row> {
    seq(|rows|, k requires 0 <= k < |rows| => if rows[k].id == id then Row(id, Apply(rows[k].user, p)) else rows[k])
  }

  /** Whether a record has that id. */
  predicate HasId(rows: seq<Row>, id: nat) {
    exists k :: 0 <= k < |rows| && rows[k].id == id
  }

  /** What a call returns (`false` where `patch` throws on an unknown id) and the table after it. */
  datatype UpdateStep = UpdateStep(found: bool, table: Table)

  /** The handler of `UpdateUserToken` on the table `t`. */
  function Update(t: Table, id: nat, credit: int, orderId: Option<string>): UpdateStep {
    if HasId(t.rows, id) then UpdateStep(true, Table(PatchRows(t.rows, id, TokenPatch(credit, orderId)), t.nextId))
    else UpdateStep(false, t)
  }

  /**
   * The record with that id gets the new credit, and a new subscription id
   * only for a non-empty order id; its name and email, and every other
   * record, are unchanged; an unknown id changes nothing.
   */
  lemma UpdateChangesOneRecord(t: Table, id: nat, credit: int, orderId: Option<string>)
    requires TableValid(t)
    ensures var step := Update(t, id, credit, orderId);
            && step.found == HasId(t.rows, id)
            && step.table.nextId == t.nextId
            && |step.table.rows| == |t.rows|
            && TableValid(step.table)
            && UniqueEmails(step.table.rows) == UniqueEmails(t.rows)
            && forall k :: 0 <= k < |t.rows| ==>
                 var before := t.rows[k];
                 var after := step.table.rows[k];
                 if before.id != id then after == before
                 else
                   && after.id == id
                   && after.user.name == before.user.name && after.user.email == before.user.email
                   && after.user.credit == credit
                   && after.user.subscriptionId
                      == (if orderId.Some? && orderId.value != "" then orderId else before.user.subscriptionId)
  {
    var step := Update(t, id, credit, orderId);
    var rows := step.table.rows;
    assert forall k :: 0 <= k < |t.rows| ==> rows[k].id == t.rows[k].id && rows[k].user.email == t.rows[k].user.email;
  }

  // ---------------------------------------------------------------------------
  // The table and the handlers
  // ---------------------------------------------------------------------------

  /** The `users` table. */
  class UserTable {
    var rows: seq<Row>
    var nextId: nat

    /** The contents as a value. */
    function Snapshot(): Table
      reads this
    {
      Table(rows, nextId)
    }

    ghost predicate Valid()
      reads this
    {
      TableValid(Snapshot())
    }

    /** An empty table. */
    constructor ()
      ensures Valid() && rows == [] && nextId == 0
    {
      rows := [];
      nextId := 0;
    }

    /** `ctx.db.insert('users', user)`: a fresh id, and the record appended. */
    method Insert(user: User) returns (id: nat)
      requires Valid()
      modifies this
      ensures Valid()
      ensures id == old(nextId) && nextId == old(nextId) + 1
      ensures rows == old(rows) + [Row(id, user)]
    {
      id := nextId;
      rows := rows + [Row(id, user)];
      nextId := nextId + 1;
    }

    /** `ctx.db.patch(id, p)`; `found` is false where Convex throws. */
    method Patch(id: nat, p: PatchData) returns (found: bool)
      requires Valid()
      modifies this
      ensures Valid()
      ensures found == HasId(old(rows), id)
      ensures rows == (if found then PatchRows(old(rows), id, p) else old(rows)) && nextId == old(nextId)
    {
      found := HasId(rows, id);
      if found {
        var patched := PatchRows(rows, id, p);
        assert forall k :: 0 <= k < |rows| ==> patched[k].id == rows[k].id;
        rows := patched;
      }
    }
  }

  /** The `CreateUser` mutation. */
  method CreateUser(db: UserTable, name: string, email: string) returns (result: Created)
    requires db.Valid()
    modifies db
    ensures db.Valid()
    ensures CreateStep(result, db.Snapshot()) == Create(old(db.Snapshot()), name, email)
  {
    if Trim(name) == "" {
      return Failed(NameRequired);
    }
    if Trim(email) == "" {
      return Failed(EmailRequired);
    }
    var userData := WithEmail(db.rows, Trim(email));
    if |userData| == 0 {
      var data := NewUser(name, email);
      var id := db.Insert(data);
      return Returned(Row(id, data));
    }
    return Returned(userData[0]);
  }

  /** The `UpdateUserToken` mutation. */
  method UpdateUserToken(db: UserTable, id: nat, credit: int, orderId: Option<string>) returns (found: bool)
    requires db.Valid()
    modifies db
    ensures db.Valid()
    ensures UpdateStep(found, db.Snapshot()) == Update(old(db.Snapshot()), id, credit, orderId)
  {
    var patchData := PatchData(credit, None);
    if orderId.Some? && orderId.value != "" {
      patchData := patchData.(subscriptionId := orderId);
    }
    found := db.Patch(id, patchData);
  }
}
