/** Option and Result values used by every module: a nullable column or an
    absent key is an `Option`; an operation that raises on some inputs returns
    a `Result` whose `Err` names the exception. */
module Wrappers {
  datatype Option<T> = None | Some(value: T)

  datatype Result<T, E> = Ok(value: T) | Err(error: E)

  /** `validated_data.get(key, current)`: the value given for a key, or the
      current one when the key is absent. */
  function Given<T>(given: Option<T>, current: T): T
  {
    if given.Some? then given.value else current
  }
}

/** The enumerations of `common.constants` (that file is not part of this
    model; its string codes are modelled as closed datatypes). */
module Constants {
  /** USER_ROLES codes. */
  datatype Role = Customer | Manager | Director | Admin

  /** ORDER_STATUSES codes. */
  datatype OrderStatus = NotAssigned | Pending | Done | Canceled

  /** The two answers of `Cart.check_balance`. */
  datatype BalanceCheck = MoneyEnough | DontEnoughMoney
}

/** The model of a queryset `filter(...)` over a table whose primary keys are
    the positions 0 .. n-1 of its rows. */
module Queries {
  /** The keys below `n` whose rows satisfy `P`, in ascending key order. */
  function Where(n: nat, P: nat -> bool): (r: seq<nat>)
    ensures forall i: nat :: i in r <==> i < n && P(i)
    ensures forall a, b :: 0 <= a < b < |r| ==> r[a] < r[b]
    ensures |r| == 0 <==> forall i: nat :: i < n ==> !P(i)
    ensures |r| > 0 ==> forall i: nat :: i < r[0] ==> !P(i)
  {
    if n == 0 then []
    else
      var rest := Where(n - 1, P);
      if P(n - 1) then
        var r := rest + [n - 1];
        assert forall a :: 0 <= a < |rest| ==> rest[a] in rest;
        assert r[0] == if |rest| > 0 then rest[0] else n - 1;
        assert forall a :: 0 <= a < |r| ==> r[a] == if a < |rest| then rest[a] else n - 1;
        r
      else rest
  }

  /** A filter that no row satisfies yields no key. */
  lemma WhereNone(n: nat, P: nat -> bool)
    requires forall i: nat :: i < n ==> !P(i)
    ensures Where(n, P) == []
  {
  }

  /** A filter that exactly the row `x` satisfies yields exactly `[x]`. */
  lemma {:induction false} WhereOne(n: nat, P: nat -> bool, x: nat)
    requires x < n
    requires forall i: nat :: i < n ==> (P(i) <==> i == x)
    ensures Where(n, P) == [x]
  {
    if n - 1 == x {
      WhereNone(n - 1, P);
    } else {
      WhereOne(n - 1, P, x);
    }
  }
}
