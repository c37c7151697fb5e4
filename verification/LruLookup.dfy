/** The bounded cache of user lookups, and why it answers like the plain query. */
module LruLookup {
  import opened Basics

  const CACHE_MAXSIZE: nat := 128

  /** Lifecycle status and normalized profile of a user. */
  datatype Context = Context(status: Option<string>, profile: Option<string>)

  datatype UserRow = UserRow(id: string, context: Context)

  /** The direct query: the first row with the id. */
  function Find(users: seq<UserRow>, id: string): Option<Context> {
    if users == [] then None
    else if users[0].id == id then Some(users[0].context)
    else Find(users[1..], id)
  }

  function Without<T(==,!new)>(xs: seq<T>, x: T): seq<T> {
    if xs == [] then []
    else Without(xs[..|xs| - 1], x) + (if xs[|xs| - 1] == x then [] else [xs[|xs| - 1]])
  }

  /** The distinct items of `xs`, ordered by their last occurrence. */
  function LastSeen<T(==,!new)>(xs: seq<T>): seq<T> {
    if xs == [] then []
    else Without(LastSeen(xs[..|xs| - 1]), xs[|xs| - 1]) + [xs[|xs| - 1]]
  }

  function Newest<T(==,!new)>(n: nat, xs: seq<T>): seq<T> {
    if |xs| <= n then xs else xs[|xs| - n..]
  }

  lemma {:induction false} WithoutOfConcat<T(!new)>(xs: seq<T>, ys: seq<T>, x: T)
    ensures Without(xs + ys, x) == Without(xs, x) + Without(ys, x)
  {
    if ys == [] {
      assert xs + ys == xs;
    } else {
      var n := |ys| - 1;
      WithoutOfConcat(xs, ys[..n], x);
      assert (xs + ys)[..|xs| + n] == xs + ys[..n];
    }
  }

  lemma {:induction false} WithoutAbsent<T(!new)>(xs: seq<T>, x: T)
    requires x !in xs
    ensures Without(xs, x) == xs
  {
    if xs != [] {
      WithoutAbsent(xs[..|xs| - 1], x);
    }
  }

  lemma {:induction false} WithoutKeepsOthers<T(!new)>(xs: seq<T>, x: T)
    ensures forall y :: y in Without(xs, x) <==> y in xs && y != x
  {
    if xs != [] {
      WithoutKeepsOthers(xs[..|xs| - 1], x);
      assert xs == xs[..|xs| - 1] + [xs[|xs| - 1]];
    }
  }

  lemma {:induction false} WithoutKeepsDistinct<T(!new)>(xs: seq<T>, x: T)
    requires NoDuplicates(xs)
    ensures NoDuplicates(Without(xs, x))
    ensures |Without(xs, x)| == if x in xs then |xs| - 1 else |xs|
  {
    if xs != [] {
      var init, y := xs[..|xs| - 1], xs[|xs| - 1];
      assert xs == init + [y];
      WithoutKeepsDistinct(init, x);
      WithoutKeepsOthers(init, x);
      assert y !in init;
      if y != x {
        DistinctPlusOne(Without(init, x), y);
      }
    }
  }

  /** Each item is listed once. */
  lemma {:induction false} LastSeenIsDistinct<T(!new)>(xs: seq<T>)
    ensures NoDuplicates(LastSeen(xs))
    ensures forall x :: x in LastSeen(xs) <==> x in xs
  {
    if xs != [] {
      var init, x := xs[..|xs| - 1], xs[|xs| - 1];
      assert xs == init + [x];
      LastSeenIsDistinct(init);
      WithoutKeepsDistinct(LastSeen(init), x);
      WithoutKeepsOthers(LastSeen(init), x);
      DistinctPlusOne(Without(LastSeen(init), x), x);
    }
  }

  lemma DistinctPlusOne<T(!new)>(xs: seq<T>, x: T)
    requires NoDuplicates(xs) && x !in xs
    ensures NoDuplicates(xs + [x])
    ensures forall y :: y in xs + [x] <==> y in xs || y == x
  {
  }

  /** The list after one more use of `x`, told from the newest items alone. */
  function Used<T(==,!new)>(n: nat, recent: seq<T>, x: T): seq<T> {
    if x in recent then Without(recent, x) + [x]
    else if |recent| >= n > 0 then recent[1..] + [x]
    else recent + [x]
  }

  lemma UseOfRecent<T(!new)>(n: nat, seen: seq<T>, x: T)
    requires n >= 1 && NoDuplicates(seen) && x in Newest(n, seen)
    ensures Newest(n, Without(seen, x) + [x]) == Used(n, Newest(n, seen), x)
  {
    var recent := Newest(n, seen);
    var cut := |seen| - |recent|;
    assert seen == seen[..cut] + recent;
    assert NoDuplicates(recent);
    HeadAvoidsTail(seen, cut, x);
    WithoutOfConcat(seen[..cut], recent, x);
    WithoutAbsent(seen[..cut], x);
    WithoutKeepsDistinct(recent, x);
    MoveToEndSplits(seen[..cut], Without(recent, x), x, n);
  }

  lemma HeadAvoidsTail<T(!new)>(xs: seq<T>, cut: nat, x: T)
    requires NoDuplicates(xs) && cut <= |xs|
    ensures !(x in xs[..cut] && x in xs[cut..])
  {
  }

  lemma MoveToEndSplits<T(!new)>(head: seq<T>, tail: seq<T>, x: T, n: nat)
    requires |tail| + 1 <= n && (head == [] || |tail| + 1 == n)
    ensures Newest(n, head + tail + [x]) == tail + [x]
  {
  }

  lemma UseOfForgotten<T(!new)>(n: nat, seen: seq<T>, x: T)
    requires n >= 1 && NoDuplicates(seen) && x !in Newest(n, seen) && x in seen
    ensures Newest(n, Without(seen, x) + [x]) == Used(n, Newest(n, seen), x)
  {
    var cut := |seen| - n;
    var head, recent := seen[..cut], Newest(n, seen);
    assert seen == head + recent;
    assert x in head;
    WithoutOfConcat(head, recent, x);
    WithoutAbsent(recent, x);
    ShiftByOne(Without(head, x), recent, x);
  }

  lemma ShiftByOne<T(!new)>(head: seq<T>, recent: seq<T>, x: T)
    requires recent != []
    ensures Newest(|recent|, head + recent + [x]) == recent[1..] + [x]
  {
    assert head + recent + [x] == (head + [recent[0]]) + recent[1..] + [x];
    MoveToEndSplits(head + [recent[0]], recent[1..], x, |recent|);
  }

  lemma ShiftByOneNew<T(!new)>(n: nat, seen: seq<T>, x: T)
    requires 1 <= n <= |seen|
    ensures Newest(n, seen + [x]) == Newest(n, seen)[1..] + [x]
  {
    var cut := |seen| + 1 - n;
    var more := seen + [x];
    assert seen == seen[..cut] + seen[cut..];
    assert more == seen[..cut] + seen[cut..] + [x];
    MoveToEndSplits(seen[..cut], seen[cut..], x, n);
    assert Newest(n, seen)[1..] == seen[cut..];
  }

  lemma UseOfNew<T(!new)>(n: nat, seen: seq<T>, x: T)
    requires n >= 1 && x !in seen
    ensures Newest(n, Without(seen, x) + [x]) == Used(n, Newest(n, seen), x)
  {
    WithoutAbsent(seen, x);
    NewestIsPart(n, seen);
    var recent := Newest(n, seen);
    assert x !in recent;
    if |seen| >= n {
      ShiftByOneNew(n, seen, x);
      assert Used(n, recent, x) == recent[1..] + [x];
    } else {
      assert Used(n, recent, x) == seen + [x];
    }
  }

  lemma NewestIsPart<T(!new)>(n: nat, xs: seq<T>)
    ensures |Newest(n, xs)| <= n
    ensures forall x :: x in Newest(n, xs) ==> x in xs
    ensures NoDuplicates(xs) ==> NoDuplicates(Newest(n, xs))
  {
  }

  /** One more use of `x`: the least recent item leaves a full list only if `x` is not on it. */
  lemma NewestAfterUse<T(!new)>(n: nat, seen: seq<T>, x: T)
    requires n >= 1 && NoDuplicates(seen)
    ensures Newest(n, Without(seen, x) + [x]) == Used(n, Newest(n, seen), x)
  {
    if x in Newest(n, seen) {
      UseOfRecent(n, seen, x);
    } else if x in seen {
      UseOfForgotten(n, seen, x);
    } else {
      UseOfNew(n, seen, x);
    }
  }

  // ----- What the cache holds after a history of answered calls

  /** The keys in order are exactly the most recently used distinct found users, with what the table says. */
  ghost predicate Agrees(users: seq<UserRow>, served: seq<string>, order: seq<string>, entries: map<string, Context>)
  {
    && order == Newest(CACHE_MAXSIZE, LastSeen(served))
    && (forall id :: id in entries <==> id in order)
    && (forall id :: id in entries ==> Find(users, id) == Some(entries[id]))
  }

  lemma ServedOnceMore(served: seq<string>, id: string)
    ensures Newest(CACHE_MAXSIZE, LastSeen(served + [id])) == Used(CACHE_MAXSIZE, Newest(CACHE_MAXSIZE, LastSeen(served)), id)
  {
    assert (served + [id])[..|served|] == served;
    LastSeenIsDistinct(served);
    NewestAfterUse(CACHE_MAXSIZE, LastSeen(served), id);
  }

  /** Reinserting a hit moves its key to the end and keeps the entries. */
  lemma HitAgrees(users: seq<UserRow>, served: seq<string>, order: seq<string>, entries: map<string, Context>, id: string)
    requires Agrees(users, served, order, entries) && id in entries
    ensures Agrees(users, served + [id], Without(order, id) + [id], entries)
  {
    ServedOnceMore(served, id);
    WithoutKeepsOthers(order, id);
  }

  /** Storing a miss appends its key to a cache that is not full. */
  lemma MissAgrees(users: seq<UserRow>, served: seq<string>, order: seq<string>, entries: map<string, Context>,
                   id: string, context: Context)
    requires Agrees(users, served, order, entries) && id !in entries && Find(users, id) == Some(context)
    requires |order| < CACHE_MAXSIZE
    ensures Agrees(users, served + [id], order + [id], entries[id := context])
  {
    ServedOnceMore(served, id);
  }

  /** A full cache first drops its first key. */
  lemma FullMissAgrees(users: seq<UserRow>, served: seq<string>, order: seq<string>, entries: map<string, Context>,
                       id: string, context: Context)
    requires Agrees(users, served, order, entries) && id !in entries && Find(users, id) == Some(context)
    requires |order| >= CACHE_MAXSIZE
    ensures Agrees(users, served + [id], order[1..] + [id], (entries - {order[0]})[id := context])
  {
    ServedOnceMore(served, id);
    LastSeenIsDistinct(served);
    NewestIsPart(CACHE_MAXSIZE, LastSeen(served));
    TailKeepsOthers(order);
    var kept, keys := entries - {order[0]}, order[1..];
    assert forall k :: k in kept <==> k in keys;
  }

  lemma TailKeepsOthers<T(!new)>(xs: seq<T>)
    requires NoDuplicates(xs) && xs != []
    ensures forall x :: x in xs[1..] <==> x in xs && x != xs[0]
  {
    assert xs == [xs[0]] + xs[1..];
  }

  // ----- The object of the program

  /** The cache is a dictionary in insertion order: its keys in order, and what they map to. */
  class OktaLookup {
    const users: seq<UserRow>
    var order: seq<string>
    var entries: map<string, Context>
    /** The users of all calls so far that found one, in call order. */
    ghost var served: seq<string>

    ghost predicate Valid()
      reads this
    {
      Agrees(users, served, order, entries)
    }

    constructor (users: seq<UserRow>)
      ensures Valid() && this.users == users && served == []
    {
      this.users := users;
      order, entries, served := [], map[], [];
    }

    /** `fails` says whether the database raises, should the query be made. */
    method UserSamlContext(id: string, fails: bool) returns (context: Option<Context>)
      requires Valid()
      modifies this
      ensures Valid()
      ensures |order| <= CACHE_MAXSIZE
      ensures context == if fails && id !in old(order) then None else Find(users, id)
      ensures served == if context.Some? then old(served) + [id] else old(served)
    {
      NewestIsPart(CACHE_MAXSIZE, LastSeen(served));
      if id in entries {
        context := Some(entries[id]);
        HitAgrees(users, served, order, entries, id);
        order := Without(order, id) + [id];
      } else if fails {
        return None;
      } else {
        context := Find(users, id);
        if context.None? {
          return;
        }
        if |order| < CACHE_MAXSIZE {
          MissAgrees(users, served, order, entries, id, context.value);
        } else {
          FullMissAgrees(users, served, order, entries, id, context.value);
          entries := entries - {order[0]};
          order := order[1..];
        }
        order := order + [id];
        entries := entries[id := context.value];
      }
      served := served + [id];
      NewestIsPart(CACHE_MAXSIZE, LastSeen(served));
    }
  }
}
