/**
 * The two collections the controllers read and write, as one object: the
 * `User` documents and the `Activity` log, together with the server-wide
 * password pepper. Writes go through `Create`/`Save`, which enforce the
 * schema validators and the partial unique index; `Record` appends to the
 * audit log.
 */
module Store {
  import opened Common
  import opened UserModel
  import opened ActivityModel

  class Db {
    var users: seq<Account>
    var activities: seq<Activity>
    /** `PASSWORD_PEPPER`: process-wide configuration, read-only after start-up. */
    const pepper: string

    ghost predicate Valid()
      reads this
    {
      StoreInvariant(users)
    }

    constructor (pepper: string)
      ensures Valid() && users == [] && activities == [] && this.pepper == pepper
    {
      users := [];
      activities := [];
      this.pepper := pepper;
    }

    /** `User.create(doc)`: the new document gets the next id, if validation and the index allow it. */
    method Create(doc: Account) returns (r: Result<UserId, DbError>)
      requires Valid() && Normalised(doc)
      modifies this`users
      ensures Valid()
      ensures var a := doc.(id := |old(users)|);
        match Put(old(users), a)
        case Ok(after) => r == Ok(a.id) && users == after
        case Err(e) => r == Err(e) && users == old(users)
    {
      var a := doc.(id := |users|);
      var put := Put(users, a);
      match put {
        case Ok(after) =>
          users := after;
          r := Ok(a.id);
        case Err(e) =>
          r := Err(e);
      }
    }

    /** `doc.save()` for a document loaded from the collection. */
    method Save(doc: Account) returns (r: Result<(), DbError>)
      requires Valid() && Normalised(doc) && doc.id < |users|
      modifies this`users
      ensures Valid()
      ensures match Put(old(users), doc)
        case Ok(after) => r.Ok? && users == after
        case Err(e) => r == Err(e) && users == old(users)
    {
      var put := Put(users, doc);
      match put {
        case Ok(after) =>
          users := after;
          r := Ok(());
        case Err(e) =>
          r := Err(e);
      }
    }

    /** `Activity.create(entry)`. */
    method Record(entry: Activity)
      modifies this`activities
      ensures activities == old(activities) + [entry]
    {
      activities := activities + [entry];
    }
  }
}
