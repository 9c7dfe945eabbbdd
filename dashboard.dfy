/**
 * The dashboard page: it owns the `users` store and the add-user dialog flag,
 * appends new users, and reduces the store to the role and status counts the
 * two pie charts draw.
 */
module Dashboard {
  import opened Wrappers
  import opened Seqs
  import opened Users

  /** The page's state: `users` (seeded once) and `isAddModalOpen`. */
  class Dashboard {
    var users: seq<User>
    var isAddModalOpen: bool

    constructor (seed: seq<User>)
      ensures users == seed && !isAddModalOpen
    {
      users := seed;
      isAddModalOpen := false;
    }

    method OpenAddUserModal()
      modifies this`isAddModalOpen
      ensures isAddModalOpen
    {
      isAddModalOpen := true;
    }

    method CloseAddUserModal()
      modifies this`isAddModalOpen
      ensures !isAddModalOpen
    {
      isAddModalOpen := false;
    }

    /** `handleAddUser`: the new user goes last, the others keep their places. */
    method HandleAddUser(newUser: User)
      modifies this`users
      ensures users == old(users) + [newUser]
      ensures |users| == |old(users)| + 1 && users[|users| - 1] == newUser
      ensures forall i :: 0 <= i < |old(users)| ==> users[i] == old(users)[i]
    {
      users := users + [newUser];
    }
  }

  /** One entry of a counts object: a key and its count, in key insertion order. */
  datatype Bucket = Bucket(key: string, count: nat)

  /** The keys of a counts object, in order. */
  function Labels(acc: seq<Bucket>): (r: seq<string>)
    ensures |r| == |acc|
    ensures forall i :: 0 <= i < |acc| ==> r[i] == acc[i].key
  {
    if acc == [] then [] else [acc[0].key] + Labels(acc[1..])
  }

  /** The sum of the counts. */
  function SumCounts(acc: seq<Bucket>): nat
  {
    if acc == [] then 0 else acc[0].count + SumCounts(acc[1..])
  }

  /** Reading a key of the counts object; `None` stands for `undefined`. */
  function Lookup(acc: seq<Bucket>, key: string): Option<nat>
  {
    if acc == [] then None
    else if acc[0].key == key then Some(acc[0].count)
    else Lookup(acc[1..], key)
  }

  predicate Distinct(s: seq<string>)
  {
    forall i, j :: 0 <= i < j < |s| ==> s[i] != s[j]
  }

  /**
   * One step of the reduction: the count of `key` goes up by one, treating a
   * missing key as 0, so a new key is added last with count 1.
   */
  function Bump(acc: seq<Bucket>, key: string): seq<Bucket>
  {
    if acc == [] then [Bucket(key, 1)]
    else if acc[0].key == key then [Bucket(key, acc[0].count + 1)] + acc[1..]
    else [acc[0]] + Bump(acc[1..], key)
  }

  /** A key is found exactly when it is one of the object's keys. */
  lemma {:induction false} LookupFinds(acc: seq<Bucket>, key: string)
    ensures Lookup(acc, key).Some? <==> key in Labels(acc)
  {
    if acc != [] {
      LookupFinds(acc[1..], key);
      assert Labels(acc) == [acc[0].key] + Labels(acc[1..]);
    }
  }

  /** Bumping adds the key last when it is new and otherwise keeps the key order. */
  lemma {:induction false} BumpLabels(acc: seq<Bucket>, key: string)
    ensures Labels(Bump(acc, key)) == if key in Labels(acc) then Labels(acc) else Labels(acc) + [key]
  {
    if acc != [] && acc[0].key != key {
      BumpLabels(acc[1..], key);
      assert Labels(acc) == [acc[0].key] + Labels(acc[1..]);
    }
  }

  /** Bumping adds one to the total. */
  lemma {:induction false} BumpSum(acc: seq<Bucket>, key: string)
    ensures SumCounts(Bump(acc, key)) == SumCounts(acc) + 1
  {
    if acc != [] && acc[0].key != key {
      BumpSum(acc[1..], key);
    }
  }

  lemma {:induction false} BumpLookup(acc: seq<Bucket>, key: string, x: string)
    ensures Lookup(Bump(acc, key), x) == if x == key then Some(Lookup(acc, key).GetOr(0) + 1) else Lookup(acc, x)
  {
    if acc != [] && acc[0].key != key {
      BumpLookup(acc[1..], key, x);
    }
  }

  /** The reduction over `keys`, from an empty object, one `Bump` per key from first to last. */
  function TallyOf(keys: seq<string>): seq<Bucket>
  {
    if keys == [] then [] else Bump(TallyOf(keys[..|keys| - 1]), keys[|keys| - 1])
  }

  /** How many times `x` occurs in `keys`. */
  function Occurrences(keys: seq<string>, x: string): nat
  {
    if keys == [] then 0
    else Occurrences(keys[..|keys| - 1], x) + if keys[|keys| - 1] == x then 1 else 0
  }

  lemma {:induction false} OccurrencesPositive(keys: seq<string>, x: string)
    ensures Occurrences(keys, x) > 0 <==> x in keys
  {
    if keys != [] {
      OccurrencesPositive(keys[..|keys| - 1], x);
      assert keys == keys[..|keys| - 1] + [keys[|keys| - 1]];
    }
  }

  /** The position at which `x` first occurs in `keys`. */
  function FirstIndex(keys: seq<string>, x: string): (i: nat)
    requires x in keys
    ensures i < |keys| && keys[i] == x && x !in keys[..i]
  {
    if keys[0] == x then 0 else 1 + FirstIndex(keys[1..], x)
  }

  /** In a counts object with distinct keys, looking up the i-th key finds the i-th count. */
  lemma {:induction false} LookupAt(acc: seq<Bucket>, i: nat)
    requires Distinct(Labels(acc)) && i < |acc|
    ensures Lookup(acc, acc[i].key) == Some(acc[i].count)
  {
    if i > 0 {
      assert Labels(acc)[0] != Labels(acc)[i];
      assert Labels(acc[1..]) == Labels(acc)[1..];
      LookupAt(acc[1..], i - 1);
    }
  }

  /**
   * Looking a value up in the reduction's result gives its number of
   * occurrences when it occurs in `keys`, and `undefined` otherwise.
   */
  lemma {:induction false} TallyOfLookup(keys: seq<string>, x: string)
    ensures Lookup(TallyOf(keys), x) == if x in keys then Some(Occurrences(keys, x)) else None
  {
    if keys != [] {
      var prefix, key := keys[..|keys| - 1], keys[|keys| - 1];
      var before := TallyOf(prefix);
      assert TallyOf(keys) == Bump(before, key);
      assert Occurrences(keys, x) == Occurrences(prefix, x) + if key == x then 1 else 0;
      assert x in keys <==> x in prefix || x == key by {
        assert keys == prefix + [key];
      }
      TallyOfLookup(prefix, x);
      BumpLookup(before, key, x);
      if x == key {
        assert Lookup(TallyOf(keys), x) == Some(Lookup(before, key).GetOr(0) + 1);
        if key in prefix {
          assert Lookup(before, key) == Some(Occurrences(prefix, key));
        } else {
          OccurrencesPositive(prefix, key);
        }
      } else {
        assert Lookup(TallyOf(keys), x) == Lookup(before, x);
      }
    }
  }

  /** The reduction's keys are exactly the values occurring in `keys`, each once. */
  lemma {:induction false} TallyOfDistinct(keys: seq<string>)
    ensures Distinct(Labels(TallyOf(keys)))
    ensures forall x :: x in Labels(TallyOf(keys)) <==> x in keys
  {
    forall x
      ensures x in Labels(TallyOf(keys)) <==> x in keys
    {
      TallyOfLookup(keys, x);
      LookupFinds(TallyOf(keys), x);
    }
    if keys != [] {
      var prefix, key := keys[..|keys| - 1], keys[|keys| - 1];
      TallyOfDistinct(prefix);
      BumpLabels(TallyOf(prefix), key);
    }
  }

  /** The counts add up to the number of keys reduced. */
  lemma {:induction false} TallyOfSum(keys: seq<string>)
    ensures SumCounts(TallyOf(keys)) == |keys|
  {
    if keys != [] {
      TallyOfSum(keys[..|keys| - 1]);
      BumpSum(TallyOf(keys[..|keys| - 1]), keys[|keys| - 1]);
    }
  }

  /** The same, bucket by bucket. */
  lemma TallyOfBuckets(keys: seq<string>)
    ensures forall i :: 0 <= i < |TallyOf(keys)| ==>
      TallyOf(keys)[i].count == Occurrences(keys, TallyOf(keys)[i].key) > 0
  {
    var acc := TallyOf(keys);
    TallyOfDistinct(keys);
    forall i | 0 <= i < |acc|
      ensures acc[i].count == Occurrences(keys, acc[i].key) > 0
    {
      LookupAt(acc, i);
      TallyOfLookup(keys, acc[i].key);
      OccurrencesPositive(keys, acc[i].key);
      assert acc[i].key == Labels(acc)[i];
    }
  }

  /** Keys appear in the order in which their values first occur in `keys` (object key insertion order). */
  lemma {:induction false} TallyOfOrder(keys: seq<string>)
    ensures forall i, j :: 0 <= i < j < |Labels(TallyOf(keys))| ==>
      && Labels(TallyOf(keys))[i] in keys && Labels(TallyOf(keys))[j] in keys
      && FirstIndex(keys, Labels(TallyOf(keys))[i]) < FirstIndex(keys, Labels(TallyOf(keys))[j])
  {
    if keys == [] {
      assert Labels(TallyOf(keys)) == [];
    } else {
      var prefix, key := keys[..|keys| - 1], keys[|keys| - 1];
      assert keys == prefix + [key];
      TallyOfOrder(prefix);
      TallyOfDistinct(prefix);
      BumpLabels(TallyOf(prefix), key);
      FirstOrderExtends(prefix, key, Labels(TallyOf(prefix)), Labels(TallyOf(keys)));
    }
  }

  /** One step of the order argument: adding a key at the end of `prefix`. */
  lemma FirstOrderExtends(prefix: seq<string>, key: string, before: seq<string>, after: seq<string>)
    requires forall x :: x in before <==> x in prefix
    requires forall i, j :: 0 <= i < j < |before| ==>
      && before[i] in prefix && before[j] in prefix
      && FirstIndex(prefix, before[i]) < FirstIndex(prefix, before[j])
    requires after == if key in before then before else before + [key]
    ensures forall i, j :: 0 <= i < j < |after| ==>
      && after[i] in prefix + [key] && after[j] in prefix + [key]
      && FirstIndex(prefix + [key], after[i]) < FirstIndex(prefix + [key], after[j])
  {
    var keys := prefix + [key];
    forall x | x in before
      ensures x in keys && FirstIndex(keys, x) == FirstIndex(prefix, x)
    {
      FirstIndexOfPrefix(prefix, key, x);
    }
    if key !in before {
      assert FirstIndex(keys, key) == |prefix| by {
        assert keys[|prefix|] == key && key !in keys[..|prefix|];
      }
      forall i, j | 0 <= i < j < |after|
        ensures after[i] in keys && after[j] in keys && FirstIndex(keys, after[i]) < FirstIndex(keys, after[j])
      {
        assert after[i] == before[i];
        if j < |before| {
          assert after[j] == before[j];
        }
      }
    }
  }

  lemma {:induction false} FirstIndexOfPrefix(prefix: seq<string>, key: string, x: string)
    requires x in prefix
    ensures FirstIndex(prefix + [key], x) == FirstIndex(prefix, x)
  {
    if prefix[0] != x {
      assert (prefix + [key])[1..] == prefix[1..] + [key];
      FirstIndexOfPrefix(prefix[1..], key, x);
    }
  }

  /** The reduction as the page runs it: one pass that updates the accumulator for each key. */
  method Tally(keys: seq<string>) returns (acc: seq<Bucket>)
    ensures acc == TallyOf(keys)
    ensures Distinct(Labels(acc))
    ensures forall x :: Lookup(acc, x) == if x in keys then Some(Occurrences(keys, x)) else None
    ensures SumCounts(acc) == |keys|
  {
    acc := [];
    var i := 0;
    while i < |keys|
      invariant 0 <= i <= |keys|
      invariant acc == TallyOf(keys[..i])
    {
      assert keys[..i + 1][..i] == keys[..i];
      acc := Bump(acc, keys[i]);
      i := i + 1;
    }
    assert keys[..|keys|] == keys;
    TallyOfDistinct(keys);
    TallyOfSum(keys);
    forall x
      ensures Lookup(acc, x) == if x in keys then Some(Occurrences(keys, x)) else None
    {
      TallyOfLookup(keys, x);
    }
  }

  /** The role column of the store. */
  function Roles(users: seq<User>): (roles: seq<string>)
    ensures |roles| == |users|
    ensures forall i :: 0 <= i < |users| ==> roles[i] == users[i].role
  {
    var roleOf := (u: User) => u.role;
    MapAt(users, roleOf);
    Map(users, roleOf)
  }

  /** The status column of the store. */
  function Statuses(users: seq<User>): (statuses: seq<string>)
    ensures |statuses| == |users|
    ensures forall i :: 0 <= i < |users| ==> statuses[i] == users[i].status
  {
    var statusOf := (u: User) => u.status;
    MapAt(users, statusOf);
    Map(users, statusOf)
  }

  /**
   * `roleCounts`: for every role, the number of users holding it, and
   * `undefined` for a role nobody holds; the counts add up to the number of users.
   */
  method RoleCounts(users: seq<User>) returns (roleCounts: seq<Bucket>)
    ensures roleCounts == TallyOf(Roles(users))
    ensures Distinct(Labels(roleCounts))
    ensures forall r :: Lookup(roleCounts, r) ==
                        if exists u :: u in users && u.role == r then Some(Occurrences(Roles(users), r)) else None
    ensures SumCounts(roleCounts) == |users|
  {
    roleCounts := Tally(Roles(users));
    forall r
      ensures r in Roles(users) <==> exists u :: u in users && u.role == r
    {
      if r in Roles(users) {
        var i :| 0 <= i < |users| && Roles(users)[i] == r;
        assert users[i] in users;
      }
    }
  }

  /** `statusCounts`: the same reduction over the users' statuses. */
  method StatusCounts(users: seq<User>) returns (statusCounts: seq<Bucket>)
    ensures statusCounts == TallyOf(Statuses(users))
    ensures Distinct(Labels(statusCounts))
    ensures forall s :: Lookup(statusCounts, s) ==
                        if exists u :: u in users && u.status == s then Some(Occurrences(Statuses(users), s)) else None
    ensures SumCounts(statusCounts) == |users|
  {
    statusCounts := Tally(Statuses(users));
    forall s
      ensures s in Statuses(users) <==> exists u :: u in users && u.status == s
    {
      if s in Statuses(users) {
        var i :| 0 <= i < |users| && Statuses(users)[i] == s;
        assert users[i] in users;
      }
    }
  }
}
