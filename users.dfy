/**
 * Insert-if-absent user creation (convex/users.ts), over the `UserTable`
 * declared in convex/schema.ts.
 *
 * The handler queries the rows whose `email` equals the argument's; when
 * there are none it inserts a new row and returns the arguments with the new
 * id, otherwise it returns the first row found and leaves the table alone.
 * The table is a sequence of rows in insertion order, which is the order the
 * query returns them in.
 */
module Users {

  type Id = nat

  /** A document of `UserTable`, with its system id. */
  datatype UserRow = UserRow(id: Id, name: string, imageUrl: string, email: string)

  /** The mutation's arguments. */
  datatype NewUser = NewUser(name: string, email: string, imageUrl: string)

  /** The two shapes the handler returns. */
  datatype Created =
    | Inserted(email: string, imageUrl: string, name: string, result: Id)
    | Existing(row: UserRow)

  /** No two rows share an email. */
  ghost predicate UniqueEmails(rows: seq<UserRow>)
  {
    forall i, j :: 0 <= i < j < |rows| ==> rows[i].email != rows[j].email
  }

  /** The query `filter(email == e).collect()`: the rows with email `e`, in table order. */
  function WithEmail(rows: seq<UserRow>, e: string): (found: seq<UserRow>)
    ensures forall row :: row in found <==> row in rows && row.email == e
    ensures found == [] <==> forall i :: 0 <= i < |rows| ==> rows[i].email != e
    ensures found != [] ==>
      exists i :: 0 <= i < |rows| && rows[i] == found[0] && forall j :: 0 <= j < i ==> rows[j].email != e
    decreases |rows|
  {
    if rows == [] then []
    else
      var rest := WithEmail(rows[1..], e);
      assert forall row :: row in rows <==> row == rows[0] || row in rows[1..];
      if rows[0].email == e then
        [rows[0]] + rest
      else
        assert rest != [] ==> exists i :: 1 <= i < |rows| && rows[i] == rest[0] && forall j :: 0 <= j < i ==> rows[j].email != e
        by {
          if rest != [] {
            var i :| 0 <= i < |rows[1..]| && rows[1..][i] == rest[0] && forall j :: 0 <= j < i ==> rows[1..][j].email != e;
            assert rows[i + 1] == rest[0];
          }
        }
        rest
  }

  /** Filtering distributes over appending rows. */
  lemma {:induction false} WithEmailAppend(a: seq<UserRow>, b: seq<UserRow>, e: string)
    ensures WithEmail(a + b, e) == WithEmail(a, e) + WithEmail(b, e)
    decreases |a|
  {
    if a != [] {
      assert (a + b)[1..] == a[1..] + b;
      WithEmailAppend(a[1..], b, e);
    } else {
      assert a + b == b;
    }
  }

  /** The handler as a function of the table and the id the store hands out: the new table and the result. */
  function Create(rows: seq<UserRow>, args: NewUser, newId: Id): (out: (seq<UserRow>, Created))
    ensures (forall i :: 0 <= i < |rows| ==> rows[i].email != args.email) ==>
      && out.0 == rows + [UserRow(newId, args.name, args.imageUrl, args.email)]
      && out.1 == Inserted(args.email, args.imageUrl, args.name, newId)
    ensures (exists i :: 0 <= i < |rows| && rows[i].email == args.email) ==>
      && out.0 == rows
      && out.1.Existing?
      && exists i :: 0 <= i < |rows| && rows[i] == out.1.row && rows[i].email == args.email
           && forall j :: 0 <= j < i ==> rows[j].email != args.email
    ensures |out.0| <= |rows| + 1 && out.0[..|rows|] == rows
  {
    var found := WithEmail(rows, args.email);
    if |found| == 0 then
      (rows + [UserRow(newId, args.name, args.imageUrl, args.email)], Inserted(args.email, args.imageUrl, args.name, newId))
    else
      (rows, Existing(found[0]))
  }

  /** Creation never introduces a second row with the same email. */
  lemma CreateKeepsEmailsUnique(rows: seq<UserRow>, args: NewUser, newId: Id)
    requires UniqueEmails(rows)
    ensures UniqueEmails(Create(rows, args, newId).0)
  {
    var after := Create(rows, args, newId).0;
    if after != rows {
      forall i, j | 0 <= i < j < |after|
        ensures after[i].email != after[j].email
      {
        if j == |rows| {
          assert after[i] == rows[i];
        }
      }
    }
  }

  /**
   * A second call with the same arguments adds nothing and returns the row
   * the first call stored or found; two calls add at most one row.
   */
  lemma CreateTwiceAddsAtMostOne(rows: seq<UserRow>, args: NewUser, id1: Id, id2: Id)
    ensures var (once, first) := Create(rows, args, id1);
      var (twice, second) := Create(once, args, id2);
      && twice == once
      && |twice| <= |rows| + 1
      && second.Existing? && second.row.email == args.email
      && (first.Inserted? ==> second.row == UserRow(id1, args.name, args.imageUrl, args.email))
      && (first.Existing? ==> second == first)
  {
    var (once, first) := Create(rows, args, id1);
    var row := UserRow(id1, args.name, args.imageUrl, args.email);
    if first.Inserted? {
      WithEmailAppend(rows, [row], args.email);
      assert WithEmail([row], args.email) == [row];
      assert once[|rows|] == row;
    }
  }

  /** The `UserTable` and the id source of the document store. */
  class UserTable {
    var rows: seq<UserRow>
    var nextId: Id

    /** Every stored id was handed out before, so the next one is unused. */
    ghost predicate Valid()
      reads this
    {
      forall i :: 0 <= i < |rows| ==> rows[i].id < nextId
    }

    constructor ()
      ensures Valid() && rows == []
    {
      rows, nextId := [], 0;
    }

    /** The `CreateNewUser` mutation. */
    method CreateNewUser(args: NewUser) returns (result: Created)
      requires Valid()
      modifies this
      ensures Valid()
      ensures (rows, result) == Create(old(rows), args, old(nextId))
      ensures result.Inserted? ==> forall i :: 0 <= i < |old(rows)| ==> old(rows)[i].id != result.result
    {
      var user := WithEmail(rows, args.email);
      if |user| == 0 {
        var id := nextId;
        rows := rows + [UserRow(id, args.name, args.imageUrl, args.email)];
        nextId := nextId + 1;
        return Inserted(args.email, args.imageUrl, args.name, id);
      }
      return Existing(user[0]);
    }
  }
}
