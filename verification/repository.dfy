/** The notification table and its repository. The table is a map from Id to
    record (the primary key); keyIndex is the filtered unique index on
    IdempotencyKey, which holds only non-null keys. */
module Repository {
  import opened Common
  import opened Notifications

  const PrimaryKeyColumn: string := "Notifications.Id"
  const IdempotencyKeyColumn: string := "Notifications.IdempotencyKey"

  datatype Store = Store(rows: map<Guid, Notification>, keyIndex: map<string, Guid>)

  const EmptyStore: Store := Store(map[], map[])

  /** The table's constraints: each row sits under its own Id, and keyIndex maps
      exactly the non-null keys present to the row holding them. */
  predicate Valid(s: Store) {
    && (forall id | id in s.rows :: s.rows[id].id == id)
    && (forall k | k in s.keyIndex ::
          s.keyIndex[k] in s.rows && s.rows[s.keyIndex[k]].idempotencyKey == Some(k))
    && (forall id | id in s.rows && s.rows[id].idempotencyKey.Some? ::
          s.rows[id].idempotencyKey.value in s.keyIndex
          && s.keyIndex[s.rows[id].idempotencyKey.value] == id)
  }

  /** Some row carries the idempotency key k. */
  predicate HasKey(s: Store, k: string) {
    exists id :: id in s.rows && s.rows[id].idempotencyKey == Some(k)
  }

  /** At most one row carries any given non-null key; null keys are exempt. */
  lemma KeysUnique(s: Store, a: Guid, b: Guid)
    requires Valid(s)
    requires a in s.rows && b in s.rows
    requires s.rows[a].idempotencyKey.Some? && s.rows[a].idempotencyKey == s.rows[b].idempotencyKey
    ensures a == b
  {
  }

  /** Rows carrying the same null key may coexist, and so may rows sharing a
      UserId and CreatedAt: the (UserId, CreatedAt) index is not unique. */
  lemma NullKeysAndUserIndexNotUnique(n: Notification, m: Notification)
    requires n.id != m.id && n.idempotencyKey.None? && m.idempotencyKey.None?
    ensures Valid(Store(map[n.id := n, m.id := m], map[]))
  {
  }

  /** CreateAsync: Add then SaveChanges. The insert fails on a duplicate Id or on
      a non-null key some row already holds; otherwise exactly that record is
      added and nothing else changes. */
  function Insert(s: Store, n: Notification): (r: Result<Store, DbFailure>)
    requires Valid(s)
    ensures r.Success? <==> n.id !in s.rows && (n.idempotencyKey.None? || !HasKey(s, n.idempotencyKey.value))
    ensures r.Success? ==> Valid(r.value) && r.value.rows == s.rows[n.id := n]
    ensures r.Failure? ==> r.error.UniqueViolation?
  {
    if n.id in s.rows then Failure(UniqueViolation(PrimaryKeyColumn))
    else match n.idempotencyKey
      case None => Success(Store(s.rows[n.id := n], s.keyIndex))
      case Some(k) =>
        if k in s.keyIndex then Failure(UniqueViolation(IdempotencyKeyColumn))
        else Success(Store(s.rows[n.id := n], s.keyIndex[k := n.id]))
  }

  /** After a successful insert, both lookups find the record as given: by its
      Id, and by its key when it has one. */
  lemma InsertThenLookup(s: Store, n: Notification)
    requires Valid(s) && Insert(s, n).Success?
    ensures GetById(Insert(s, n).value, n.id) == Some(n)
    ensures n.idempotencyKey.Some? ==> GetByKey(Insert(s, n).value, n.idempotencyKey.value) == Some(n)
  {
    var s' := Insert(s, n).value;
    if n.idempotencyKey.Some? {
      var found := GetByKey(s', n.idempotencyKey.value).value;
      KeysUnique(s', found.id, n.id);
    }
  }

  /** GetByIdAsync: the row stored under that Id, or null. */
  function GetById(s: Store, id: Guid): (r: Option<Notification>)
    requires Valid(s)
    ensures r.Some? <==> id in s.rows
    ensures r.Some? ==> r.value == s.rows[id] && r.value.id == id
  {
    if id in s.rows then Some(s.rows[id]) else None
  }

  /** GetByIdempotencyKeyAsync: the row whose key equals k, or null when no row
      has it. */
  function GetByKey(s: Store, k: string): (r: Option<Notification>)
    requires Valid(s)
    ensures r.Some? <==> HasKey(s, k)
    ensures r.Some? ==> r.value.idempotencyKey == Some(k) && r.value.id in s.rows && s.rows[r.value.id] == r.value
  {
    if k in s.keyIndex then Some(s.rows[s.keyIndex[k]]) else None
  }

  /** UpdateAsync: replaces the whole row with the record's Id. It fails when no
      row has that Id or when the record's key is held by another row. */
  function Update(s: Store, n: Notification): (r: Result<Store, DbFailure>)
    requires Valid(s)
    ensures n.id !in s.rows ==> r == Failure(Concurrency)
    ensures r.Success? <==>
      && n.id in s.rows
      && (n.idempotencyKey.None? || forall id | id in s.rows && s.rows[id].idempotencyKey == n.idempotencyKey :: id == n.id)
    ensures r.Success? ==> Valid(r.value) && r.value.rows == s.rows[n.id := n]
  {
    if n.id !in s.rows then Failure(Concurrency)
    else
      var current := s.rows[n.id];
      var released := if current.idempotencyKey.Some? then s.keyIndex - {current.idempotencyKey.value} else s.keyIndex;
      match n.idempotencyKey
      case None => Success(Store(s.rows[n.id := n], released))
      case Some(k) =>
        if k in s.keyIndex && s.keyIndex[k] != n.id then Failure(UniqueViolation(IdempotencyKeyColumn))
        else Success(Store(s.rows[n.id := n], released[k := n.id]))
  }

  /** An update that keeps the record's Id and key always succeeds. */
  lemma UpdateSameKey(s: Store, n: Notification)
    requires Valid(s) && n.id in s.rows
    requires n.idempotencyKey == s.rows[n.id].idempotencyKey
    ensures Update(s, n).Success?
  {
  }

  // ---------------------------------------------------------------------------
  // GetAllAsync: every row, newest CreatedAt first

  predicate NewestFirst(xs: seq<Notification>) {
    forall i, j :: 0 <= i < j < |xs| ==> xs[i].createdAt >= xs[j].createdAt
  }

  /** Places n in a newest-first list before the first record not newer than it. */
  function InsertNewestFirst(n: Notification, xs: seq<Notification>): (r: seq<Notification>)
    requires NewestFirst(xs)
    ensures |r| == |xs| + 1
    ensures multiset(r) == multiset(xs) + multiset{n}
    ensures forall y :: y in r <==> y == n || y in xs
    ensures NewestFirst(r)
  {
    if xs == [] || xs[0].createdAt <= n.createdAt then
      InsertAtFront(n, xs);
      MembersOfMultiset([n] + xs, xs, n);
      [n] + xs
    else
      var rest := InsertNewestFirst(n, xs[1..]);
      InsertBehindHead(n, xs, rest);
      MembersOfMultiset([xs[0]] + rest, xs, n);
      [xs[0]] + rest
  }

  /** A record no older than the head of a newest-first list goes in front of it. */
  lemma InsertAtFront(n: Notification, xs: seq<Notification>)
    requires NewestFirst(xs)
    requires xs == [] || xs[0].createdAt <= n.createdAt
    ensures NewestFirst([n] + xs)
    ensures multiset([n] + xs) == multiset(xs) + multiset{n}
  {
    forall y | y in xs
      ensures y.createdAt <= n.createdAt
    {
      var k :| 0 <= k < |xs| && xs[k] == y;
    }
    ConsNewestFirst(n, xs);
  }

  /** A record older than the head goes into the tail, behind the head. */
  lemma InsertBehindHead(n: Notification, xs: seq<Notification>, rest: seq<Notification>)
    requires NewestFirst(xs) && xs != [] && n.createdAt < xs[0].createdAt
    requires NewestFirst(rest)
    requires multiset(rest) == multiset(xs[1..]) + multiset{n}
    ensures NewestFirst([xs[0]] + rest)
    ensures multiset([xs[0]] + rest) == multiset(xs) + multiset{n}
  {
    assert xs == [xs[0]] + xs[1..];
    forall y | y in rest
      ensures y.createdAt <= xs[0].createdAt
    {
      assert y in multiset(rest);
      if y != n {
        assert y in multiset(xs[1..]);
        var k :| 1 <= k < |xs| && xs[k] == y;
      }
    }
    ConsNewestFirst(xs[0], rest);
  }

  /** Elements are what a list counts at least once. */
  lemma MembersOfMultiset(r: seq<Notification>, xs: seq<Notification>, n: Notification)
    requires multiset(r) == multiset(xs) + multiset{n}
    ensures forall y :: y in r <==> y == n || y in xs
  {
    forall y
      ensures y in r <==> y == n || y in xs
    {
      assert y in r <==> y in multiset(r);
      assert y in xs <==> y in multiset(xs);
    }
  }

  /** A record no older than the head of a newest-first list (or than every
      element of it) may be put in front. */
  lemma ConsNewestFirst(x: Notification, xs: seq<Notification>)
    requires NewestFirst(xs)
    requires forall y | y in xs :: y.createdAt <= x.createdAt
    ensures NewestFirst([x] + xs)
  {
  }

  /** GetAllAsync: lists every row exactly once, newest first. */
  method GetAll(s: Store) returns (all: seq<Notification>)
    requires Valid(s)
    ensures NewestFirst(all)
    ensures |all| == |s.rows|
    ensures forall id | id in s.rows :: s.rows[id] in all
    ensures forall x | x in all :: x.id in s.rows && s.rows[x.id] == x
  {
    all := [];
    var remaining := s.rows.Keys;
    while remaining != {}
      invariant remaining <= s.rows.Keys
      invariant NewestFirst(all)
      invariant |all| + |remaining| == |s.rows|
      invariant forall id | id in s.rows && id !in remaining :: s.rows[id] in all
      invariant forall x | x in all :: x.id in s.rows && s.rows[x.id] == x
      decreases |remaining|
    {
      var id :| id in remaining;
      all := InsertNewestFirst(s.rows[id], all);
      remaining := remaining - {id};
    }
  }
}
