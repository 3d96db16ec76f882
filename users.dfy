/**
 * The user service's profile mapping and credit arithmetic. The auth
 * provider's user store is a map field; a read is `getUserById`, a write
 * merges the given metadata fields into the stored ones.
 *
 * Credits are whole numbers here; a missing or `null` metadata field is
 * `None`, and an empty string is kept as it is (it is falsy, as in the source).
 */
module Users {
  import opened Wrappers

  /** The user metadata fields the service reads and writes. */
  datatype Metadata = Metadata(
    fullName: Option<string>,
    name: Option<string>,
    avatarUrl: Option<string>,
    tier: Option<string>,
    credits: Option<int>)

  /** A user record as the auth provider stores it. */
  datatype AuthUser = AuthUser(
    id: string,
    email: Option<string>,
    createdAt: string,
    provider: Option<string>,
    metadata: Metadata)

  /** The normalised profile `getUserById` returns. */
  datatype AppUser = AppUser(
    id: string,
    email: Option<string>,
    name: Option<string>,
    avatarUrl: Option<string>,
    provider: Option<string>,
    createdAt: string,
    tier: string,
    credits: int)

  /** `s || null` for an optional string: a missing or empty string gives `null`. */
  function Filled(s: Option<string>): Option<string> {
    if s.Some? && s.value != [] then s else None
  }

  /** `a || b` for optional strings. */
  function FirstFilled(a: Option<string>, b: Option<string>): Option<string> {
    if Filled(a).Some? then a else Filled(b)
  }

  /** `n || fallback` for an optional number: missing, `null` and 0 give the fallback. */
  function OrNumber(n: Option<int>, fallback: int): int {
    if n.Some? && n.value != 0 then n.value else fallback
  }

  /** The credits a user without a usable stored value reads as. */
  const DefaultCredits := 5

  /** The map from the stored user to the profile. */
  function ToAppUser(u: AuthUser): (r: AppUser)
    ensures r.credits != 0
    ensures r.tier != []
  {
    AppUser(
      u.id,
      Filled(u.email),
      FirstFilled(u.metadata.fullName, u.metadata.name),
      Filled(u.metadata.avatarUrl),
      u.provider,
      u.createdAt,
      if u.metadata.tier.Some? && u.metadata.tier.value != [] then u.metadata.tier.value else "free",
      OrNumber(u.metadata.credits, DefaultCredits))
  }

  /**
   * The profile's defaults: a missing, empty or zero stored value reads as
   * 5 credits, a missing or empty tier as `free`, and the name is the full
   * name, else the name, else `null`.
   */
  lemma ProfileDefaults(u: AuthUser)
    ensures var p := ToAppUser(u);
      && (p.credits == if u.metadata.credits.None? || u.metadata.credits.value == 0 then 5 else u.metadata.credits.value)
      && (p.tier == if u.metadata.tier.None? || u.metadata.tier.value == [] then "free" else u.metadata.tier.value)
      && (p.name == if u.metadata.fullName.Some? && u.metadata.fullName.value != [] then u.metadata.fullName
                    else if u.metadata.name.Some? && u.metadata.name.value != [] then u.metadata.name
                    else None)
  {
  }

  /** The balance a decrement leaves: never below zero. */
  function Decremented(current: int, amount: int): (r: int)
    ensures r >= 0
    ensures r == 0 || r == current - amount
    ensures r >= current - amount
  {
    if current - amount > 0 then current - amount else 0
  }

  /** The stored users after `user`'s credits are written as `credits`. */
  function WithCredits(users: map<string, AuthUser>, id: string, credits: int): map<string, AuthUser>
    requires id in users
  {
    users[id := users[id].(metadata := users[id].metadata.(credits := Some(credits)))]
  }

  /** What `decrementCredits` returns: the new balance, or the lookup error. */
  function DecrementResult(users: map<string, AuthUser>, id: string, amount: Option<int>): Result<int, string> {
    if id !in users then Err("User not found")
    else Ok(Decremented(OrNumber(Some(ToAppUser(users[id]).credits), 0), amount.GetOr(1)))
  }

  /** What `addCredits` returns: the new balance, or the lookup error. */
  function AddResult(users: map<string, AuthUser>, id: string, amount: int): Result<int, string> {
    if id !in users then Err("User not found")
    else Ok(OrNumber(Some(ToAppUser(users[id]).credits), 0) + amount)
  }

  /** A decrement never leaves a negative balance and takes off one credit by default. */
  lemma DecrementBounds(users: map<string, AuthUser>, id: string, amount: Option<int>)
    requires id in users
    ensures var read := ToAppUser(users[id]).credits;
      var r := DecrementResult(users, id, amount);
      && r.Ok? && r.value >= 0
      && r.value == (if read - amount.GetOr(1) > 0 then read - amount.GetOr(1) else 0)
  {
  }

  /**
   * Adding credits to a known user returns its balance as read plus the
   * amount; since a read balance is never 0, a drained user gets 5 + amount.
   */
  lemma AddBounds(users: map<string, AuthUser>, id: string, amount: int)
    requires id in users
    ensures var read := ToAppUser(users[id]).credits;
      read != 0 && AddResult(users, id, amount) == Ok(read + amount)
    ensures users[id].metadata.credits in {None, Some(0)} ==> AddResult(users, id, amount) == Ok(5 + amount)
  {
  }

  /**
   * A user whose stored balance is 0 reads as 5, so a default decrement
   * leaves 4: a drained balance is topped up rather than kept at zero.
   */
  lemma DrainedBalanceReadsAsFive(users: map<string, AuthUser>, id: string)
    requires id in users && users[id].metadata.credits == Some(0)
    ensures DecrementResult(users, id, None) == Ok(4)
  {
  }

  /** The auth provider's store of users. */
  class UserStore {
    var users: map<string, AuthUser>

    constructor (initial: map<string, AuthUser>)
      ensures users == initial
    {
      users := initial;
    }

    /** `getUserById`. */
    method GetUserById(id: string) returns (r: Result<AppUser, string>)
      ensures r == if id in users then Ok(ToAppUser(users[id])) else Err("User not found")
    {
      if id !in users {
        return Err("User not found");
      }
      return Ok(ToAppUser(users[id]));
    }

    /** `updateUserMetadata(id, { credits })`: the other metadata fields are kept. */
    method UpdateCredits(id: string, credits: int)
      requires id in users
      modifies this
      ensures users == WithCredits(old(users), id, credits)
    {
      var u := users[id];
      users := users[id := u.(metadata := u.metadata.(credits := Some(credits)))];
    }

    /** `decrementCredits(id, amount)`; `None` is the default amount of 1. */
    method DecrementCredits(id: string, amount: Option<int>) returns (r: Result<int, string>)
      modifies this
      ensures r == DecrementResult(old(users), id, amount)
      ensures r.Ok? ==> users == WithCredits(old(users), id, r.value)
      ensures r.Err? ==> users == old(users)
    {
      var user := GetUserById(id);
      if user.Err? {
        return Err(user.error);
      }
      var currentCredits := OrNumber(Some(user.value.credits), 0);
      var newCredits := Decremented(currentCredits, amount.GetOr(1));
      UpdateCredits(id, newCredits);
      return Ok(newCredits);
    }

    /** `addCredits(id, amount)`. */
    method AddCredits(id: string, amount: int) returns (r: Result<int, string>)
      modifies this
      ensures r == AddResult(old(users), id, amount)
      ensures r.Ok? ==> users == WithCredits(old(users), id, r.value)
      ensures r.Err? ==> users == old(users)
    {
      var user := GetUserById(id);
      if user.Err? {
        return Err(user.error);
      }
      var currentCredits := OrNumber(Some(user.value.credits), 0);
      var newCredits := currentCredits + amount;
      UpdateCredits(id, newCredits);
      return Ok(newCredits);
    }
  }

  /**
   * After a credit operation the stored balance is the one returned, and
   * reading the user back gives it (a zero reads as 5, as any stored zero does).
   */
  lemma StoredIsReturned(users: map<string, AuthUser>, id: string, credits: int)
    requires id in users
    ensures var after := WithCredits(users, id, credits);
      && id in after && after[id].metadata.credits == Some(credits)
      && ToAppUser(after[id]).credits == (if credits == 0 then 5 else credits)
      && forall other :: other in users && other != id ==> other in after && after[other] == users[other]
  {
  }
}
