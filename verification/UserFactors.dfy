/**
 Factor collection: parallel streams claim users, fetch their factors and write
 rows with a scope marker for users without factors; the lookup counts them back.
 */
module UserFactors {
  import opened Basics

  /** A row of the user_factors table; a scope marker has no factor id. */
  datatype Row = Row(user: string, id: Option<string>, active: bool)

  /** A factor as the API returns it. */
  datatype Factor = Factor(id: string, active: bool)

  datatype FetchResult = Fetched(factors: seq<Factor>) | NonFatal | Fatal

  class UserFactorClaims {
    var claimed: set<string>

    constructor ()
      ensures claimed == {}
    {
      claimed := {};
    }

    method Claim(userId: string) returns (granted: bool)
      modifies this
      ensures granted <==> userId !in old(claimed)
      ensures claimed == old(claimed) + {userId}
    {
      if userId in claimed {
        return false;
      }
      claimed := claimed + {userId};
      return true;
    }
  }

  /** The rows of one successful fetch: one per factor, or the scope marker. */
  function FactorRows(user: string, factors: seq<Factor>): seq<Row> {
    if factors == [] then [Row(user, None, false)]
    else seq(|factors|, i requires 0 <= i < |factors| => Row(user, Some(factors[i].id), factors[i].active))
  }

  // ----- The streams as a state machine

  /** One user handed to one stream, and how far the stream has got with it. */
  datatype Job =
    | Waiting(user: string)
    | Fetching(user: string)
    | Yielding(user: string, rows: seq<Row>)
    | Done(user: string)

  /**
   The keys of `owner` are the claimed users, and each maps to the job that holds
   the claim; `fetched` lists the users whose fetch was started, `covered` what each
   successful fetch returned.
   */
  datatype State = State(
    owner: map<string, nat>,
    jobs: seq<Job>,
    table: seq<Row>,
    fetched: seq<string>,
    covered: map<string, seq<Factor>>)

  datatype Event = Claim(job: nat) | FetchEnds(job: nat, result: FetchResult) | Yield(job: nat)

  predicate Legal(s: State, e: Event) {
    && e.job < |s.jobs|
    && match e
       case Claim(i) => s.jobs[i].Waiting?
       case FetchEnds(i, _) => s.jobs[i].Fetching?
       case Yield(i) => s.jobs[i].Yielding?
  }

  function Apply(s: State, e: Event): State
    requires Legal(s, e)
  {
    var user := s.jobs[e.job].user;
    match e
    case Claim(i) =>
      if user in s.owner then s.(jobs := s.jobs[i := Done(user)])
      else s.(owner := s.owner[user := i], jobs := s.jobs[i := Fetching(user)], fetched := s.fetched + [user])
    case FetchEnds(i, result) =>
      if result.Fetched? then
        s.(jobs := s.jobs[i := Yielding(user, FactorRows(user, result.factors))],
           covered := s.covered[user := result.factors])
      else s.(jobs := s.jobs[i := Done(user)])
    case Yield(i) =>
      var rows := s.jobs[i].rows;
      if rows == [] then s.(jobs := s.jobs[i := Done(user)])
      else s.(jobs := s.jobs[i := Yielding(user, rows[1..])], table := s.table + [rows[0]])
  }

  ghost predicate Run(s: State, es: seq<Event>, t: State)
    decreases |es|
  {
    if es == [] then s == t
    else Legal(s, es[0]) && Run(Apply(s, es[0]), es[1..], t)
  }

  ghost predicate Initial(s: State) {
    && s.owner == map[] && s.table == [] && s.fetched == [] && s.covered == map[]
    && forall i :: 0 <= i < |s.jobs| ==> s.jobs[i].Waiting?
  }

  ghost predicate Reachable(t: State) {
    exists s, es :: Initial(s) && Run(s, es, t)
  }

  // ----- The lookup

  /** The rows of one user, in table order. */
  function RowsOf(table: seq<Row>, user: string): seq<Row> {
    if table == [] then []
    else
      var last := table[|table| - 1];
      RowsOf(table[..|table| - 1], user) + (if last.user == user then [last] else [])
  }

  function CountActiveRows(rows: seq<Row>): nat {
    if rows == [] then 0
    else
      var last := rows[|rows| - 1];
      CountActiveRows(rows[..|rows| - 1]) + (if last.id.Some? && last.active then 1 else 0)
  }

  /** COUNT(*) of zero rows means not collected; otherwise the active rows with a factor id count. */
  function FactorsCount(table: seq<Row>, user: string): Option<nat> {
    var rows := RowsOf(table, user);
    if rows == [] then None else Some(CountActiveRows(rows))
  }

  function CountActive(factors: seq<Factor>): nat {
    if factors == [] then 0
    else CountActive(factors[..|factors| - 1]) + (if factors[|factors| - 1].active then 1 else 0)
  }

  // ----- The invariant

  /** What the table, the history and the claiming job say about one user fit together. */
  ghost predicate UserSound(s: State, user: string) {
    var rows := RowsOf(s.table, user);
    if user !in s.owner then user !in s.covered && rows == []
    else
      && s.owner[user] < |s.jobs|
      && var job := s.jobs[s.owner[user]];
         && job.user == user
         && match job
            case Waiting(_) => false
            case Fetching(_) => user !in s.covered && rows == []
            case Yielding(_, pending) => user in s.covered && rows + pending == FactorRows(user, s.covered[user])
            case Done(_) => rows == if user in s.covered then FactorRows(user, s.covered[user]) else []
  }

  /** A job at work holds the claim of its user, and writes rows of that user only. */
  ghost predicate JobSound(s: State, i: nat)
    requires i < |s.jobs|
  {
    var job := s.jobs[i];
    && (!job.Waiting? ==> job.user in s.owner)
    && (job.Fetching? || job.Yielding? ==> s.owner[job.user] == i)
    && (job.Yielding? ==> forall k :: 0 <= k < |job.rows| ==> job.rows[k].user == job.user)
  }

  ghost predicate Inv(s: State) {
    && NoDuplicates(s.fetched)
    && (forall user :: user in s.fetched <==> user in s.owner)
    && (forall i :: 0 <= i < |s.jobs| ==> JobSound(s, i))
    && (forall user :: UserSound(s, user))
  }

  lemma RowsOfAppend(table: seq<Row>, row: Row, user: string)
    ensures RowsOf(table + [row], user) == RowsOf(table, user) + (if row.user == user then [row] else [])
  {
    assert (table + [row])[..|table|] == table;
  }

  lemma StepKeepsJob(s: State, e: Event, i: nat)
    requires Inv(s) && Legal(s, e) && i < |s.jobs|
    ensures JobSound(Apply(s, e), i)
  {
    assert JobSound(s, i) && JobSound(s, e.job);
  }

  lemma ClaimKeepsUser(s: State, e: Event, user: string)
    requires Inv(s) && Legal(s, e) && e.Claim?
    ensures UserSound(Apply(s, e), user)
  {
    assert UserSound(s, user) && UserSound(s, s.jobs[e.job].user);
  }

  lemma FetchKeepsUser(s: State, e: Event, user: string)
    requires Inv(s) && Legal(s, e) && e.FetchEnds?
    ensures UserSound(Apply(s, e), user)
  {
    assert UserSound(s, user) && JobSound(s, e.job);
    if e.result.Fetched? {
      assert [] + FactorRows(user, e.result.factors) == FactorRows(user, e.result.factors);
    }
  }

  lemma YieldKeepsUser(s: State, e: Event, user: string)
    requires Inv(s) && Legal(s, e) && e.Yield?
    ensures UserSound(Apply(s, e), user)
  {
    assert UserSound(s, user) && JobSound(s, e.job);
    var rows := s.jobs[e.job].rows;
    assert RowsOf(s.table, user) + [] == RowsOf(s.table, user);
    if rows != [] {
      RowsOfAppend(s.table, rows[0], user);
      assert rows[0].user == s.jobs[e.job].user;
      assert RowsOf(s.table, user) + rows == (RowsOf(s.table, user) + [rows[0]]) + rows[1..];
    }
  }

  lemma StepKeepsInv(s: State, e: Event)
    requires Inv(s) && Legal(s, e)
    ensures Inv(Apply(s, e))
  {
    var t := Apply(s, e);
    forall i | 0 <= i < |t.jobs| ensures JobSound(t, i) {
      StepKeepsJob(s, e, i);
    }
    forall user ensures UserSound(t, user) {
      match e
      case Claim(_) => ClaimKeepsUser(s, e, user);
      case FetchEnds(_, _) => FetchKeepsUser(s, e, user);
      case Yield(_) => YieldKeepsUser(s, e, user);
    }
  }

  lemma {:induction false} RunKeepsInv(s: State, es: seq<Event>, t: State)
    requires Inv(s) && Run(s, es, t)
    ensures Inv(t)
    decreases |es|
  {
    if es != [] {
      StepKeepsInv(s, es[0]);
      RunKeepsInv(Apply(s, es[0]), es[1..], t);
    }
  }

  lemma ReachableInv(t: State)
    requires Reachable(t)
    ensures Inv(t)
  {
    var s, es :| Initial(s) && Run(s, es, t);
    RunKeepsInv(s, es, t);
  }

  // ----- Counting rows and factors

  lemma {:induction false} FactorRowsCount(user: string, factors: seq<Factor>)
    ensures FactorRows(user, factors) != []
    ensures CountActiveRows(FactorRows(user, factors)) == CountActive(factors)
  {
    if factors == [] {
      assert CountActiveRows([Row(user, None, false)][..0]) == 0;
    } else {
      var n := |factors| - 1;
      var rows := FactorRows(user, factors);
      FactorRowsCount(user, factors[..n]);
      if n > 0 {
        assert rows[..n] == FactorRows(user, factors[..n]);
      }
    }
  }

  ghost predicate Finished(t: State) {
    forall i :: 0 <= i < |t.jobs| ==> t.jobs[i].Done?
  }

  /** However the streams interleave, no user's factors are fetched twice. */
  lemma FetchedAtMostOnce(t: State)
    requires Reachable(t)
    ensures NoDuplicates(t.fetched)
  {
    ReachableInv(t);
  }

  /** Once all streams are done, exactly the users handed to some stream have been fetched. */
  lemma FetchedExactly(t: State, user: string)
    requires Reachable(t) && Finished(t)
    ensures user in t.fetched <==> exists i :: 0 <= i < |t.jobs| && t.jobs[i].user == user
    ensures user in t.covered ==> user in t.fetched
  {
    ReachableInv(t);
    assert UserSound(t, user);
    if i :| 0 <= i < |t.jobs| && t.jobs[i].user == user {
      assert JobSound(t, i);
    }
    if user in t.owner {
      assert t.jobs[t.owner[user]].user == user;
    }
  }

  /**
   Once all streams are done, for any interleaving and any pattern of failed
   fetches: the lookup says None exactly for users without a successful fetch, and
   otherwise the number of active factors that the fetch returned, which is 0 for a
   user without factors.
   */
  lemma CountReadsBackTheFetch(t: State, user: string)
    requires Reachable(t) && Finished(t)
    ensures FactorsCount(t.table, user)
         == if user in t.covered then Some(CountActive(t.covered[user])) else None
  {
    ReachableInv(t);
    assert UserSound(t, user);
    if user in t.covered {
      FactorRowsCount(user, t.covered[user]);
    }
  }
}
