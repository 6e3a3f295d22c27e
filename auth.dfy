/** auth_/models.py: users, their profile, the role queries and the ranking of
    users by the number of orders assigned to them. */
module AuthModels {
  import opened Wrappers
  import opened Constants
  import opened Queries
  import opened CoreModels

  type UserId = nat

  /** A user; `roles` and `cur_city` are nullable columns. The password hash
      is not modelled. */
  datatype User = User(
    username: string,
    email: string,
    firstName: string,
    lastName: string,
    role: Option<Role>,
    curCity: Option<CityId>,
    isSuperuser: bool,
    isStaff: bool)
  {
    /** `User.__str__`. */
    function DisplayName(): (s: string)
      ensures |s| == |firstName| + 1 + |lastName|
      ensures s[..|firstName|] == firstName && s[|firstName|] == ' ' && s[|firstName| + 1..] == lastName
    {
      firstName + " " + lastName
    }
  }

  /** The profile row of a user: its phone (nullable) and bio. */
  datatype Profile = Profile(phone: Option<string>, bio: string)

  /** The users whose `roles` is `role`. They are listed here by key; the
      queryset itself is ordered by `Meta.ordering`, which `FirstByOrdering`
      models where the order matters. */
  function UsersWithRole(users: seq<User>, role: Role): (r: seq<UserId>)
    ensures forall u: nat :: u in r <==> u < |users| && users[u].role == Some(role)
  {
    Where(|users|, (u: nat) => u < |users| && users[u].role == Some(role))
  }

  /** Lexicographic order on strings, character by character, as a column
      of text is sorted when characters compare by code point. */
  predicate StrLe(a: string, b: string)
  {
    a == [] || (b != [] && (a[0] < b[0] || (a[0] == b[0] && StrLe(a[1..], b[1..]))))
  }

  lemma {:induction false} StrLeTotal(a: string, b: string)
    ensures StrLe(a, b) || StrLe(b, a)
  {
    if a != [] && b != [] && a[0] == b[0] {
      StrLeTotal(a[1..], b[1..]);
    }
  }

  lemma {:induction false} StrLeAntisymmetric(a: string, b: string)
    requires StrLe(a, b) && StrLe(b, a)
    ensures a == b
  {
    if a != [] {
      StrLeAntisymmetric(a[1..], b[1..]);
      assert a == [a[0]] + a[1..] && b == [b[0]] + b[1..];
    }
  }

  lemma {:induction false} StrLeTransitive(a: string, b: string, c: string)
    requires StrLe(a, b) && StrLe(b, c)
    ensures StrLe(a, c)
  {
    if a != [] && a[0] == b[0] && b[0] == c[0] {
      StrLeTransitive(a[1..], b[1..], c[1..]);
    }
  }

  /** `Meta.ordering = ['roles', 'username', 'first_name', 'last_name']`
      among users of one role: by username, then first name, then last
      name. */
  predicate OrderingLe(x: User, y: User)
  {
    if x.username != y.username then StrLe(x.username, y.username)
    else if x.firstName != y.firstName then StrLe(x.firstName, y.firstName)
    else StrLe(x.lastName, y.lastName)
  }

  /** Any two users compare, one way or the other. */
  lemma OrderingLeTotal(x: User, y: User)
    ensures OrderingLe(x, y) || OrderingLe(y, x)
  {
    StrLeTotal(x.username, y.username);
    StrLeTotal(x.firstName, y.firstName);
    StrLeTotal(x.lastName, y.lastName);
  }

  lemma OrderingLeTransitive(x: User, y: User, z: User)
    requires OrderingLe(x, y) && OrderingLe(y, z)
    ensures OrderingLe(x, z)
  {
    if x.username != y.username && y.username != z.username {
      StrLeTransitive(x.username, y.username, z.username);
      if x.username == z.username {
        StrLeAntisymmetric(x.username, y.username);
      }
    } else if x.username == y.username && y.username == z.username {
      if x.firstName != y.firstName && y.firstName != z.firstName {
        StrLeTransitive(x.firstName, y.firstName, z.firstName);
        if x.firstName == z.firstName {
          StrLeAntisymmetric(x.firstName, y.firstName);
        }
      } else if x.firstName == y.firstName && y.firstName == z.firstName {
        StrLeTransitive(x.lastName, y.lastName, z.lastName);
      }
    }
  }

  /** A user that comes no later than the least of `rest`, and is thereby no
      later than each of it, is the least of `[x] + rest`. */
  lemma LeastOfPrepend(users: seq<User>, x: UserId, m: UserId, rest: seq<UserId>)
    requires x < |users| && m < |users| && forall i :: 0 <= i < |rest| ==> rest[i] < |users|
    requires OrderingLe(users[x], users[m])
    requires forall i :: 0 <= i < |rest| ==> OrderingLe(users[m], users[rest[i]])
    ensures forall i :: 0 <= i < |[x] + rest| ==> OrderingLe(users[x], users[([x] + rest)[i]])
  {
    forall i | 0 <= i < |[x] + rest|
      ensures OrderingLe(users[x], users[([x] + rest)[i]])
    {
      if i == 0 {
        OrderingLeTotal(users[x], users[x]);
      } else {
        assert ([x] + rest)[i] == rest[i - 1];
        OrderingLeTransitive(users[x], users[m], users[rest[i - 1]]);
      }
    }
  }

  /** The first of the users `ks` in `Meta.ordering`; among users equal in
      every ordering column, which the database leaves unordered, the model
      takes the earliest in `ks`. */
  function FirstByOrdering(users: seq<User>, ks: seq<UserId>): (m: UserId)
    requires |ks| > 0 && forall i :: 0 <= i < |ks| ==> ks[i] < |users|
    ensures m in ks
    ensures forall i :: 0 <= i < |ks| ==> OrderingLe(users[m], users[ks[i]])
  {
    if |ks| == 1 then
      OrderingLeTotal(users[ks[0]], users[ks[0]]);
      ks[0]
    else
      var rest := ks[1..];
      var m := FirstByOrdering(users, rest);
      assert ks == [ks[0]] + rest;
      if OrderingLe(users[ks[0]], users[m]) then
        LeastOfPrepend(users, ks[0], m, rest);
        ks[0]
      else
        OrderingLeTotal(users[ks[0]], users[m]);
        m
  }

  /** `Count('orders')`: how many of the orders (given by their nullable
      assignees) are assigned to `u`, whatever their status. */
  function OrderCount(assignees: seq<Option<UserId>>, u: UserId): nat
  {
    if assignees == [] then 0
    else OrderCount(assignees[..|assignees| - 1], u) + (if assignees[|assignees| - 1] == Some(u) then 1 else 0)
  }

  /** The annotated count of every user 0 .. n-1. */
  function Loads(n: nat, assignees: seq<Option<UserId>>): (load: seq<nat>)
    ensures |load| == n
    ensures forall u :: 0 <= u < n ==> load[u] == OrderCount(assignees, u)
  {
    seq(n, (u: int) requires 0 <= u < n => OrderCount(assignees, u))
  }

  /** An order without assignee adds to nobody's count. */
  lemma {:induction false} UnassignedAddsNothing(assignees: seq<Option<UserId>>, n: nat)
    ensures Loads(n, assignees + [None]) == Loads(n, assignees)
  {
  }

  predicate Within(load: seq<nat>, r: seq<UserId>)
  {
    forall k :: 0 <= k < |r| ==> r[k] < |load|
  }

  predicate SortedByLoad(load: seq<nat>, r: seq<UserId>)
    requires Within(load, r)
  {
    forall i, j :: 0 <= i < j < |r| ==> load[r[i]] <= load[r[j]]
  }

  predicate Distinct(r: seq<UserId>)
  {
    forall i, j :: 0 <= i < j < |r| ==> r[i] != r[j]
  }

  /** A user no more loaded than everyone in a ranking, put in front of it,
      keeps it a ranking. */
  lemma PrependRanking(load: seq<nat>, x: UserId, s: seq<UserId>)
    requires x < |load| && Within(load, s) && SortedByLoad(load, s) && Distinct(s) && x !in s
    requires forall k :: 0 <= k < |s| ==> load[x] <= load[s[k]]
    ensures Within(load, [x] + s) && SortedByLoad(load, [x] + s) && Distinct([x] + s)
  {
  }

  /** Puts `u` into a ranking sorted by load, after every user of equal or
      smaller load. */
  function InsertByLoad(load: seq<nat>, s: seq<UserId>, u: UserId): (r: seq<UserId>)
    requires u < |load| && Within(load, s) && SortedByLoad(load, s)
    requires Distinct(s) && u !in s
    ensures forall x :: x in r <==> x in s || x == u
    ensures |r| == |s| + 1
    ensures Within(load, r) && SortedByLoad(load, r) && Distinct(r)
  {
    if s == [] then [u]
    else if load[s[0]] > load[u] then
      PrependRanking(load, u, s);
      [u] + s
    else
      assert s == [s[0]] + s[1..];
      assert Within(load, s[1..]) && SortedByLoad(load, s[1..]) && Distinct(s[1..]) by {
        assert forall k :: 0 <= k < |s| - 1 ==> s[1..][k] == s[k + 1];
      }
      var rest := InsertByLoad(load, s[1..], u);
      assert forall k :: 0 <= k < |rest| ==> load[s[0]] <= load[rest[k]] by {
        forall k | 0 <= k < |rest|
          ensures load[s[0]] <= load[rest[k]]
        {
          assert rest[k] in rest;
          if rest[k] != u {
            var j :| 0 <= j < |s[1..]| && s[1..][j] == rest[k];
            assert s[j + 1] == rest[k];
          }
        }
      }
      assert s[0] !in rest;
      PrependRanking(load, s[0], rest);
      [s[0]] + rest
  }

  /** `count_orders()`: all users 0 .. |load|-1 ordered by ascending count.
      `order_by('num_orders')` leaves the order among equal counts to the
      database; this model's choice keeps them in key order. */
  function CountOrders(load: seq<nat>): (r: seq<UserId>)
    ensures forall x :: x in r <==> 0 <= x < |load|
    ensures |r| == |load| && Within(load, r) && Distinct(r)
    ensures SortedByLoad(load, r)
  {
    Rank(load, |load|)
  }

  /** The ranking of the first `n` users. */
  function Rank(load: seq<nat>, n: nat): (r: seq<UserId>)
    requires n <= |load|
    ensures forall x :: x in r <==> 0 <= x < n
    ensures |r| == n && Within(load, r) && Distinct(r)
    ensures SortedByLoad(load, r)
  {
    if n == 0 then [] else InsertByLoad(load, Rank(load, n - 1), n - 1)
  }

  /** `count_orders().first()`: a user with the fewest assigned orders (by
      the model's tie-break of `CountOrders`, the lowest key among equals);
      none when there are no users. */
  function LeastLoaded(load: seq<nat>): (a: Option<UserId>)
    ensures a.Some? <==> |load| > 0
    ensures a.Some? ==> a.value < |load|
  {
    var ranked := CountOrders(load);
    if |ranked| > 0 then Some(ranked[0]) else None
  }

  /** When any user exists, the first of `count_orders()` is a user whose
      count, over all statuses and all roles, is at most every user's count. */
  lemma {:induction false} LeastLoadedIsMinimal(load: seq<nat>)
    ensures LeastLoaded(load).Some? <==> |load| > 0
    ensures LeastLoaded(load).Some? ==>
      LeastLoaded(load).value < |load| && forall v :: 0 <= v < |load| ==> load[LeastLoaded(load).value] <= load[v]
  {
    if |load| > 0 {
      var r := CountOrders(load);
      forall v | 0 <= v < |load|
        ensures load[r[0]] <= load[v]
      {
        assert v in r;
        var j :| 0 <= j < |r| && r[j] == v;
        if j > 0 {
          assert load[r[0]] <= load[r[j]];
        }
      }
    }
  }
}
