/**
 * The cost governor's ledger: one integer balance per user under the Redis
 * key `user:energy:<id>`, read by `check_energy` and lowered by
 * `deduct_energy` (`DECRBY`). The two calls are separate, there is no
 * balance check in the deduction, and nothing seeds a balance.
 *
 * Redis keeps integers as signed 64-bit values: `DECRBY` refuses an amount
 * outside that range, the amount -2^63, and a result outside it, and then
 * leaves the value as it was.
 */
module CostGovernor {
  import opened Wrappers

  const EnergyPrefix: string := "user:energy:"
  const Int64Min: int := -0x8000_0000_0000_0000
  const Int64Max: int := 0x7FFF_FFFF_FFFF_FFFF

  predicate InInt64(x: int)
  {
    Int64Min <= x <= Int64Max
  }

  datatype RedisError =
    | NotAnIntegerOrOutOfRange  // the amount is not a 64-bit integer
    | DecrementWouldOverflow    // the amount is -2^63, or the result leaves the 64-bit range

  /** The key holding a user's balance. */
  function EnergyKey(userId: string): (k: string)
    ensures |k| == |EnergyPrefix| + |userId| && k[..|EnergyPrefix|] == EnergyPrefix
  {
    EnergyPrefix + userId
  }

  /** Different users never share a key. */
  lemma EnergyKeyInjective(u: string, v: string)
    requires EnergyKey(u) == EnergyKey(v)
    ensures u == v
  {
    assert u == EnergyKey(u)[|EnergyPrefix|..];
    assert v == EnergyKey(v)[|EnergyPrefix|..];
  }

  /** What `check_energy` reads: the stored balance, 0 when the key is absent. */
  function Balance(store: map<string, int>, userId: string): (b: int)
    ensures EnergyKey(userId) !in store ==> b == 0
    ensures (forall k :: k in store ==> InInt64(store[k])) ==> InInt64(b)
    ensures EnergyKey(userId) in store ==> b == store[EnergyKey(userId)]
  {
    if EnergyKey(userId) in store then store[EnergyKey(userId)] else 0
  }

  /** The keyspace after `DECRBY user:energy:<id> amount`, or the error Redis replies with. */
  function Deducted(store: map<string, int>, userId: string, amount: int): (r: Result<map<string, int>, RedisError>)
    ensures r.Ok? <==> InInt64(amount) && amount != Int64Min && InInt64(Balance(store, userId) - amount)
    ensures r.Ok? ==> Balance(r.value, userId) == Balance(store, userId) - amount
    ensures r.Ok? ==> r.value.Keys == store.Keys + {EnergyKey(userId)}
    ensures r.Ok? ==> forall k :: k in store && k != EnergyKey(userId) ==> r.value[k] == store[k]
  {
    if !InInt64(amount) then Err(NotAnIntegerOrOutOfRange)
    else if amount == Int64Min then Err(DecrementWouldOverflow)
    else
      var after := Balance(store, userId) - amount;
      if !InInt64(after) then Err(DecrementWouldOverflow)
      else Ok(store[EnergyKey(userId) := after])
  }

  /** A deduction leaves every other user's balance as it was. */
  lemma DeductIsolated(store: map<string, int>, userId: string, other: string, amount: int)
    requires Deducted(store, userId, amount).Ok? && other != userId
    ensures Balance(Deducted(store, userId, amount).value, other) == Balance(store, other)
  {
    if EnergyKey(other) == EnergyKey(userId) {
      EnergyKeyInjective(other, userId);
    }
  }

  /** Nothing guards a deduction: any amount above the balance drives it below zero. */
  lemma DeductionCanGoNegative(store: map<string, int>, userId: string, amount: int)
    requires 0 < amount && Balance(store, userId) < amount && InInt64(amount) && InInt64(Balance(store, userId) - amount)
    ensures Deducted(store, userId, amount).Ok?
    ensures Balance(Deducted(store, userId, amount).value, userId) < 0
  {
  }

  /**
   * Check and deduct are separate calls: two callers that both read a
   * balance covering one charge, but not two, and then both deduct, leave the
   * balance negative.
   */
  lemma CheckThenDeductRace(store: map<string, int>, userId: string, cost: int)
    requires 0 < cost <= Balance(store, userId) < 2 * cost
    requires InInt64(Balance(store, userId)) && InInt64(cost)
    ensures var first := Deducted(store, userId, cost);
            && first.Ok?
            && Deducted(first.value, userId, cost).Ok?
            && Balance(Deducted(first.value, userId, cost).value, userId) < 0
  {
  }

  class EnergyLedger {
    /** The integer-valued keys of the Redis keyspace. */
    var store: map<string, int>

    ghost predicate Valid()
      reads this
    {
      forall k :: k in store ==> InInt64(store[k])
    }

    constructor ()
      ensures Valid() && store == map[]
    {
      store := map[];
    }

    /** `check_energy`. */
    method CheckEnergy(userId: string) returns (balance: int)
      requires Valid()
      ensures balance == Balance(store, userId)
      ensures InInt64(balance)
    {
      var key := EnergyPrefix + userId;
      if key in store {
        balance := store[key];
      } else {
        balance := 0;
      }
    }

    /** `deduct_energy`: `DECRBY` with no check of the balance; an error reply leaves the store as it was. */
    method DeductEnergy(userId: string, amount: int) returns (result: Result<(), RedisError>)
      requires Valid()
      modifies this
      ensures Valid()
      ensures result.Ok? <==> Deducted(old(store), userId, amount).Ok?
      ensures result.Ok? ==> store == Deducted(old(store), userId, amount).value
      ensures result.Err? ==> store == old(store) && result.error == Deducted(old(store), userId, amount).error
    {
      var key := EnergyPrefix + userId;
      var current := if key in store then store[key] else 0;
      if !InInt64(amount) {
        return Err(NotAnIntegerOrOutOfRange);
      }
      if amount == Int64Min || !InInt64(current - amount) {
        return Err(DecrementWouldOverflow);
      }
      store := store[key := current - amount];
      result := Ok(());
    }
  }
}
