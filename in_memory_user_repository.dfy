/** `InMemoryUserRepository`: a `Map` from id to user, kept as a mapping
    plus the insertion order of its ids. */
module InMemoryUsers {
  import opened Common
  import opened Text
  import opened UserEntity

  /** Some stored user has exactly this (already lower-cased) email. */
  predicate HasEmail(store: map<string, UserProps>, email: string) {
    exists id :: id in store && store[id].email == email
  }

  /** Position `i` of `order` holds the first user, in insertion order,
      whose email is `email`. */
  predicate FirstWithEmail(order: seq<string>, store: map<string, UserProps>, email: string, i: int) {
    && 0 <= i < |order| && order[i] in store && store[order[i]].email == email
    && forall j :: 0 <= j < i ==> order[j] in store && store[order[j]].email != email
  }

  class InMemoryUserRepository {
    /** The `store` map, by value: id to user. */
    var store: map<string, UserProps>
    /** The store's ids in insertion order. */
    var order: seq<string>

    ghost predicate Valid()
      reads this
    {
      && NoDuplicates(order)
      && (forall id :: id in store <==> id in order)
      && (forall id :: id in store ==> store[id].id == id)
    }

    constructor ()
      ensures Valid() && store == map[] && order == []
    {
      store := map[];
      order := [];
    }

    /** `findById(id)`: the stored user, or null. */
    method FindById(id: string) returns (u: Option<UserProps>)
      requires Valid()
      ensures u.Some? <==> id in store
      ensures u.Some? ==> u.value == store[id] && u.value.id == id
    {
      if id in store {
        return Some(store[id]);
      }
      return None;
    }

    /** `findByEmail(email)`: walks the users in insertion order and returns
        the first whose stored email equals `email` lower-cased. The
        argument is not trimmed. */
    method FindByEmail(email: string) returns (u: Option<UserProps>)
      requires Valid()
      ensures u.None? <==> !HasEmail(store, ToLower(email))
      ensures u.Some? ==> exists i :: FirstWithEmail(order, store, ToLower(email), i) && u.value == store[order[i]]
    {
      var key := ToLower(email);
      var i := 0;
      while i < |order|
        invariant 0 <= i <= |order|
        invariant forall j :: 0 <= j < i ==> store[order[j]].email != key
      {
        var user := store[order[i]];
        if user.email == key {
          assert FirstWithEmail(order, store, key, i);
          return Some(user);
        }
        i := i + 1;
      }
      forall id | id in store ensures store[id].email != key {
        var k :| 0 <= k < |order| && order[k] == id;
      }
      return None;
    }

    /** `save(user)`: sets `store[user.id]`; a new id goes to the end of
        the iteration order. */
    method Save(user: UserProps)
      requires Valid()
      modifies this
      ensures Valid()
      ensures store == old(store)[user.id := user]
      ensures order == if user.id in old(store) then old(order) else old(order) + [user.id]
    {
      if user.id !in store {
        order := order + [user.id];
      }
      store := store[user.id := user];
    }

    /** `existsByEmail(email)`: whether `findByEmail(email)` finds a user. */
    method ExistsByEmail(email: string) returns (b: bool)
      requires Valid()
      ensures b <==> HasEmail(store, ToLower(email))
    {
      var found := FindByEmail(email);
      return found.Some?;
    }
  }

  /** A user built by `User.create` and stored is found by email under any
      casing of the trimmed address it was created with. */
  lemma CreatedUserFoundUnderAnyCasing(store: map<string, UserProps>, p: CreateParams, id: string, now: nat, e: string)
    requires Create(p, id, now).Ok?
    requires ToLower(e) == ToLower(Trim(p.email))
    ensures HasEmail(store[id := Create(p, id, now).value], ToLower(e))
  {
    var u := Create(p, id, now).value;
    assert store[id := u][id].email == ToLower(e);
  }

  /** Lower-casing keeps whitespace, so a looked-up address with leading
      whitespace never matches a stored, trimmed one: the duplicate check
      ignores case but not surrounding whitespace. */
  lemma PaddedEmailIsNeverFound(store: map<string, UserProps>, e: string)
    requires forall id :: id in store ==> IsTrimmed(store[id].email)
    requires e != [] && IsSpace(e[0])
    ensures !HasEmail(store, ToLower(e))
  {
    assert IsSpace(ToLower(e)[0]);
  }
}
