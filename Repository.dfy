/**
 * The two repositories of app/database/repository.py over an in-memory model
 * of the SQLite tables created in app/database/connection.py: each table is
 * the sequence of its rows in rowid (insertion) order.
 */
module Repository {
  import opened Wrappers

  /** What the `subscription_end_date` column holds. */
  datatype StoredEnd =
    | NoEnd                  // NULL: no subscription was ever granted
    | Unreadable             // a text that `strptime` rejects
    | Written(instant: int)  // a `datetime`, in microseconds, as `update_subscription` stores it

  /** A `users` row; `createdAt` is the `CURRENT_TIMESTAMP` of the insertion. */
  datatype User = User(
    id: int,
    telegramId: int,
    username: Option<string>,
    firstName: Option<string>,
    subscriptionEnd: StoredEnd,
    createdAt: int)

  /** The `telegram_id` column, in row order. */
  function IdsOf(rows: seq<User>): (r: seq<int>)
    ensures |r| == |rows|
    ensures forall i | 0 <= i < |rows| :: r[i] == rows[i].telegramId
  {
    if rows == [] then [] else [rows[0].telegramId] + IdsOf(rows[1..])
  }

  /** No two rows share a `telegram_id` (the column is UNIQUE). */
  predicate UniqueTelegramIds(rows: seq<User>) {
    forall i, j | 0 <= i < j < |rows| :: rows[i].telegramId != rows[j].telegramId
  }

  /** `SELECT * FROM users WHERE telegram_id = ?` on a snapshot of the table: the first matching row. */
  function Find(rows: seq<User>, telegramId: int): (r: Option<User>)
    ensures r.Some? <==> telegramId in IdsOf(rows)
    ensures r.Some? ==> r.value in rows && r.value.telegramId == telegramId
    ensures r.Some? ==> exists i | 0 <= i < |rows| ::
      (rows[i] == r.value && forall j | 0 <= j < i :: rows[j].telegramId != telegramId)
  {
    if rows == [] then None
    else if rows[0].telegramId == telegramId then Some(rows[0])
    else
      var r := Find(rows[1..], telegramId);
      assert IdsOf(rows) == [rows[0].telegramId] + IdsOf(rows[1..]);
      if r.Some? then
        var i :| 0 <= i < |rows[1..]| && rows[1..][i] == r.value
          && forall j | 0 <= j < i :: rows[1..][j].telegramId != telegramId;
        assert rows[i + 1] == r.value;
        r
      else r
  }

  /** With unique `telegram_id`s, the row found is the one row that carries the id. */
  lemma FindUnique(rows: seq<User>, i: int)
    requires UniqueTelegramIds(rows) && 0 <= i < |rows|
    ensures Find(rows, rows[i].telegramId) == Some(rows[i])
  {
    assert IdsOf(rows)[i] == rows[i].telegramId;
  }

  /** `UPDATE users SET subscription_end_date = ? WHERE telegram_id = ?` on a snapshot. */
  function WithEnd(rows: seq<User>, telegramId: int, end: int): seq<User> {
    seq(|rows|, i requires 0 <= i < |rows| =>
      if rows[i].telegramId == telegramId then rows[i].(subscriptionEnd := Written(end)) else rows[i])
  }

  /** `UserRepository`, holding the `users` table. */
  class UserRepository {
    /** The rows in rowid order; no operation deletes a user. */
    var rows: seq<User>

    /**
     * The table's constraints: `telegram_id` is UNIQUE, and with no deletions
     * SQLite's "largest rowid plus one" numbers the rows 1, 2, 3, ...
     */
    ghost predicate Valid()
      reads this
    {
      && UniqueTelegramIds(rows)
      && forall i | 0 <= i < |rows| :: rows[i].id == i + 1
    }

    /** The freshly created table. */
    constructor ()
      ensures Valid() && rows == []
    {
      rows := [];
    }

    /**
     * `get_or_create`: the stored row when the `telegram_id` is known, which
     * is left as it is; otherwise a new row with the next id, the given names
     * and no subscription.
     */
    method GetOrCreate(telegramId: int, username: Option<string>, firstName: Option<string>, now: int)
      returns (user: User)
      requires Valid()
      modifies this
      ensures Valid()
      ensures telegramId in old(IdsOf(rows)) ==> Find(old(rows), telegramId) == Some(user) && rows == old(rows)
      ensures telegramId !in old(IdsOf(rows)) ==>
        && user == User(|old(rows)| + 1, telegramId, username, firstName, NoEnd, now)
        && rows == old(rows) + [user]
      ensures user.telegramId == telegramId && Find(rows, telegramId) == Some(user)
    {
      var existing := Find(rows, telegramId);
      if existing.Some? {
        user := existing.value;
        return;
      }
      user := User(|rows| + 1, telegramId, username, firstName, NoEnd, now);
      assert IdsOf(rows + [user]) == IdsOf(rows) + [telegramId];
      rows := rows + [user];
      FindUnique(rows, |rows| - 1);
    }

    /** `get_by_telegram_id`: the row stored under the id, or nothing. */
    method GetByTelegramId(telegramId: int) returns (user: Option<User>)
      requires Valid()
      ensures user == Find(rows, telegramId)
      ensures user.Some? <==> telegramId in IdsOf(rows)
      ensures user.Some? ==> user.value in rows && user.value.telegramId == telegramId
    {
      user := Find(rows, telegramId);
    }

    /** `count_all`: one row per user. */
    method CountAll() returns (n: int)
      ensures n == |rows|
    {
      n := |rows|;
    }

    /**
     * `get_all_ids`: the `telegram_id` of every row, each once. The query has
     * no ORDER BY, so SQLite may answer it in rowid order or from an index on
     * `telegram_id`; the contract promises no order. The model scans the
     * table in rowid order.
     */
    method GetAllIds() returns (ids: seq<int>)
      requires Valid()
      ensures multiset(ids) == multiset(IdsOf(rows))
      ensures |ids| == |rows|
      ensures forall i, j | 0 <= i < j < |ids| :: ids[i] != ids[j]
      ensures forall u | u in rows :: u.telegramId in ids
    {
      ids := [];
      for i := 0 to |rows|
        invariant |ids| == i
        invariant forall k | 0 <= k < i :: ids[k] == rows[k].telegramId
      {
        ids := ids + [rows[i].telegramId];
      }
      assert ids == IdsOf(rows);
    }

    /** `update_subscription`: the expiry of the matching row, and nothing else, changes. */
    method UpdateSubscription(telegramId: int, end: int)
      requires Valid()
      modifies this
      ensures Valid()
      ensures rows == WithEnd(old(rows), telegramId, end)
    {
      rows := WithEnd(rows, telegramId, end);
      assert IdsOf(rows) == IdsOf(old(rows));
    }
  }

  /** Setting an expiry keeps every row's `telegram_id`. */
  lemma WithEndKeepsIds(rows: seq<User>, telegramId: int, end: int)
    ensures IdsOf(WithEnd(rows, telegramId, end)) == IdsOf(rows)
  {
  }

  /** Setting an expiry changes the row of that user ... */
  lemma WithEndFindsUpdated(rows: seq<User>, telegramId: int, end: int)
    requires UniqueTelegramIds(rows)
    ensures Find(WithEnd(rows, telegramId, end), telegramId) ==
      match Find(rows, telegramId)
      case None => None
      case Some(u) => Some(u.(subscriptionEnd := Written(end)))
  {
    var after := WithEnd(rows, telegramId, end);
    WithEndKeepsIds(rows, telegramId, end);
    if telegramId in IdsOf(rows) {
      var i :| 0 <= i < |rows| && IdsOf(rows)[i] == telegramId;
      assert after[i] == rows[i].(subscriptionEnd := Written(end));
      assert UniqueTelegramIds(after) by {
        assert forall k | 0 <= k < |rows| :: after[k].telegramId == IdsOf(rows)[k] == rows[k].telegramId;
      }
      FindUnique(rows, i);
      FindUnique(after, i);
    } else {
      WithEndAbsent(rows, telegramId, end);
    }
  }

  /** ... and no other row. */
  lemma WithEndFindsOther(rows: seq<User>, telegramId: int, end: int, other: int)
    requires UniqueTelegramIds(rows) && other != telegramId
    ensures Find(WithEnd(rows, telegramId, end), other) == Find(rows, other)
  {
    var after := WithEnd(rows, telegramId, end);
    WithEndKeepsIds(rows, telegramId, end);
    if other in IdsOf(rows) {
      var i :| 0 <= i < |rows| && IdsOf(rows)[i] == other;
      FindUnique(rows, i);
      FindUnique(after, i);
    }
  }

  /** With no matching row the update changes nothing. */
  lemma WithEndAbsent(rows: seq<User>, telegramId: int, end: int)
    requires telegramId !in IdsOf(rows)
    ensures WithEnd(rows, telegramId, end) == rows
  {
    assert forall i | 0 <= i < |rows| :: IdsOf(rows)[i] != telegramId;
  }

  /** `get_or_create` twice with the same id gives the same row and adds no second one. */
  method GetOrCreateIsIdempotent(repo: UserRepository, telegramId: int,
                                 username: Option<string>, firstName: Option<string>,
                                 username': Option<string>, firstName': Option<string>, now: int, later: int)
    returns (first: User, second: User)
    requires repo.Valid()
    modifies repo
    ensures repo.Valid()
    ensures first == second && first.telegramId == telegramId
    ensures telegramId in old(IdsOf(repo.rows)) ==> repo.rows == old(repo.rows)
    ensures telegramId !in old(IdsOf(repo.rows)) ==> repo.rows == old(repo.rows) + [first]
  {
    first := repo.GetOrCreate(telegramId, username, firstName, now);
    second := repo.GetOrCreate(telegramId, username', firstName', later);
  }

  /** A `content_plans` row; `createdAt` is the `CURRENT_TIMESTAMP` of the insertion. */
  datatype Plan = Plan(
    id: int,
    userId: int,
    niche: string,
    targetAudience: string,
    planContent: string,
    createdAt: int)

  /** The default `limit` of `get_by_user`. */
  const DefaultPlanLimit := 10

  /** `WHERE user_id = ?`: the user's plans, in table order. */
  function PlansOf(plans: seq<Plan>, userId: int): (r: seq<Plan>)
    ensures |r| <= |plans|
  {
    if plans == [] then []
    else (if plans[0].userId == userId then [plans[0]] else []) + PlansOf(plans[1..], userId)
  }

  /** Newest first: `ORDER BY created_at DESC`. */
  predicate NewestFirst(s: seq<Plan>) {
    forall i, j | 0 <= i < j < |s| :: s[i].createdAt >= s[j].createdAt
  }

  /** Puts a plan in front of the first plan that is not newer. */
  function InsertByDate(s: seq<Plan>, p: Plan): (r: seq<Plan>)
    ensures |r| == |s| + 1
  {
    if s == [] || s[0].createdAt <= p.createdAt then [p] + s
    else [s[0]] + InsertByDate(s[1..], p)
  }

  /** The plans sorted newest first (SQLite leaves the order of equal timestamps open). */
  function SortByDate(s: seq<Plan>): (r: seq<Plan>)
    ensures |r| == |s|
  {
    if s == [] then [] else InsertByDate(SortByDate(s[1..]), s[0])
  }

  /** `LIMIT ?`: a prefix of `limit` rows at most; a negative limit sets no bound. */
  function Limit(s: seq<Plan>, limit: int): (r: seq<Plan>)
    ensures |r| == if 0 <= limit < |s| then limit else |s|
    ensures r == s[..|r|]
  {
    if 0 <= limit < |s| then s[..limit] else s
  }

  /** The rows `get_by_user` returns. */
  function UserPlans(plans: seq<Plan>, userId: int, limit: int): seq<Plan> {
    Limit(SortByDate(PlansOf(plans, userId)), limit)
  }

  /** `ContentPlanRepository`, holding the `content_plans` table. */
  class ContentPlanRepository {
    /** The rows in insertion order. */
    var plans: seq<Plan>
    /** The AUTOINCREMENT counter: the largest id ever handed out. */
    var lastId: int

    /** Plan ids are positive, increase in insertion order and never pass the counter. */
    ghost predicate Valid()
      reads this
    {
      && lastId >= 0
      && (forall i | 0 <= i < |plans| :: 1 <= plans[i].id <= lastId)
      && (forall i, j | 0 <= i < j < |plans| :: plans[i].id < plans[j].id)
    }

    constructor ()
      ensures Valid() && plans == [] && lastId == 0
    {
      plans := [];
      lastId := 0;
    }

    /** `create`: appends the plan under a fresh id, larger than every id before. */
    method Create(userId: int, niche: string, targetAudience: string, planContent: string, now: int)
      returns (id: int)
      requires Valid()
      modifies this
      ensures Valid()
      ensures id == old(lastId) + 1 && lastId == id
      ensures plans == old(plans) + [Plan(id, userId, niche, targetAudience, planContent, now)]
      ensures id > 0 && forall i | 0 <= i < |old(plans)| :: old(plans)[i].id < id
    {
      id := lastId + 1;
      plans := plans + [Plan(id, userId, niche, targetAudience, planContent, now)];
      lastId := id;
    }

    /** `get_by_user`. */
    method GetByUser(userId: int, limit: int) returns (r: seq<Plan>)
      ensures r == UserPlans(plans, userId, limit)
    {
      var own := PlansOf(plans, userId);
      r := Limit(SortByDate(own), limit);
    }

    /** `count_by_user`. */
    method CountByUser(userId: int) returns (n: int)
      ensures n == |PlansOf(plans, userId)|
    {
      n := |PlansOf(plans, userId)|;
    }

    /** `count_all`. */
    method CountAll() returns (n: int)
      ensures n == |plans|
    {
      n := |plans|;
    }
  }

  // --- what the queries return

  /** `WHERE user_id = ?` keeps exactly the user's plans, each as often as it is stored. */
  lemma {:induction false} PlansOfMeaning(plans: seq<Plan>, userId: int)
    ensures forall p :: p in PlansOf(plans, userId) <==> p in plans && p.userId == userId
    ensures forall p :: multiset(PlansOf(plans, userId))[p] == if p.userId == userId then multiset(plans)[p] else 0
  {
    if plans != [] {
      PlansOfMeaning(plans[1..], userId);
      assert plans == [plans[0]] + plans[1..];
    }
  }

  /** A new plan counts for its own user, and for no one else. */
  lemma {:induction false} PlansOfAppend(plans: seq<Plan>, p: Plan, userId: int)
    ensures PlansOf(plans + [p], userId) == PlansOf(plans, userId) + (if p.userId == userId then [p] else [])
  {
    if plans == [] {
      assert [p][1..] == [];
    } else {
      assert (plans + [p])[1..] == plans[1..] + [p];
      PlansOfAppend(plans[1..], p, userId);
    }
  }

  /** `create` adds one to the user's count and to the total, and leaves every other user's count alone. */
  lemma CreateCounts(plans: seq<Plan>, p: Plan, userId: int)
    ensures |PlansOf(plans + [p], p.userId)| == |PlansOf(plans, p.userId)| + 1
    ensures userId != p.userId ==> PlansOf(plans + [p], userId) == PlansOf(plans, userId)
    ensures |plans + [p]| == |plans| + 1
  {
    PlansOfAppend(plans, p, p.userId);
    PlansOfAppend(plans, p, userId);
  }

  /** Inserting adds the one plan and keeps all the others. */
  lemma {:induction false} InsertByDateMembers(s: seq<Plan>, p: Plan)
    ensures multiset(InsertByDate(s, p)) == multiset(s) + multiset{p}
    ensures forall x | x in InsertByDate(s, p) :: x in s || x == p
  {
    if s != [] && s[0].createdAt > p.createdAt {
      InsertByDateMembers(s[1..], p);
      assert s == [s[0]] + s[1..];
    }
  }

  /** Inserting into a list sorted newest first keeps it sorted. */
  lemma {:induction false} InsertByDateSorted(s: seq<Plan>, p: Plan)
    requires NewestFirst(s)
    ensures NewestFirst(InsertByDate(s, p))
  {
    var r := InsertByDate(s, p);
    if s == [] || s[0].createdAt <= p.createdAt {
      forall i, j | 0 <= i < j < |r| ensures r[i].createdAt >= r[j].createdAt {
        assert r[j] == s[j - 1];
        if i > 0 {
          assert r[i] == s[i - 1];
        } else if j > 1 {
          assert s[0].createdAt >= s[j - 1].createdAt;
        }
      }
    } else {
      var t := s[1..];
      assert NewestFirst(t) by {
        forall i, j | 0 <= i < j < |t| ensures t[i].createdAt >= t[j].createdAt {
          assert t[i] == s[i + 1] && t[j] == s[j + 1];
        }
      }
      InsertByDateSorted(t, p);
      InsertByDateMembers(t, p);
      var rest := InsertByDate(t, p);
      forall k | 0 <= k < |rest| ensures s[0].createdAt >= rest[k].createdAt {
        assert rest[k] in rest;
        if rest[k] != p {
          var m :| 0 <= m < |t| && t[m] == rest[k];
          assert s[m + 1] == rest[k];
        }
      }
      forall i, j | 0 <= i < j < |r| ensures r[i].createdAt >= r[j].createdAt {
        assert r[j] == rest[j - 1];
        if i > 0 {
          assert r[i] == rest[i - 1];
        }
      }
    }
  }

  /** Sorting puts the newest first and keeps every plan. */
  lemma {:induction false} SortByDateSpec(s: seq<Plan>)
    ensures NewestFirst(SortByDate(s))
    ensures multiset(SortByDate(s)) == multiset(s)
  {
    if s != [] {
      SortByDateSpec(s[1..]);
      InsertByDateSorted(SortByDate(s[1..]), s[0]);
      InsertByDateMembers(SortByDate(s[1..]), s[0]);
      assert s == [s[0]] + s[1..];
    }
  }

  /** The first `limit` of a list sorted newest first are, elementwise, no older than the rest. */
  lemma LimitKeepsNewest(sorted: seq<Plan>, limit: int)
    requires NewestFirst(sorted)
    ensures var r := Limit(sorted, limit);
      && NewestFirst(r)
      && multiset(r) <= multiset(sorted)
      && forall p: Plan, q: Plan | p in r && q in multiset(sorted) - multiset(r) :: q.createdAt <= p.createdAt
  {
    var r := Limit(sorted, limit);
    var n := |r|;
    PrefixSplit(sorted, n);
    forall p: Plan, q: Plan | p in r && q in multiset(sorted) - multiset(r) ensures q.createdAt <= p.createdAt {
      var i :| 0 <= i < n && r[i] == p;
      var j :| n <= j < |sorted| && sorted[j] == q;
    }
  }

  /** What a prefix leaves out of a list is what lies after it. */
  lemma PrefixSplit(s: seq<Plan>, n: nat)
    requires n <= |s|
    ensures multiset(s[..n]) <= multiset(s)
    ensures forall q | q in multiset(s) - multiset(s[..n]) :: exists j | n <= j < |s| :: s[j] == q
  {
    assert s == s[..n] + s[n..];
    assert multiset(s) == multiset(s[..n]) + multiset(s[n..]);
    forall q | q in multiset(s) - multiset(s[..n]) ensures exists j | n <= j < |s| :: s[j] == q {
      assert q in s[n..];
      var m :| 0 <= m < |s| - n && s[n..][m] == q;
      assert s[n + m] == q;
    }
  }

  /**
   * `get_by_user(u, limit)` returns only `u`'s plans, newest first, as many
   * as `limit` allows (all of them when the limit is negative), and passes
   * over none that is newer than one it returns.
   */
  lemma GetByUserMeaning(plans: seq<Plan>, userId: int, limit: int)
    ensures var r := UserPlans(plans, userId, limit);
      && (forall p | p in r :: p in plans && p.userId == userId)
      && |r| == (if 0 <= limit < |PlansOf(plans, userId)| then limit else |PlansOf(plans, userId)|)
      && NewestFirst(r)
      && multiset(r) <= multiset(PlansOf(plans, userId))
      && forall p: Plan, q: Plan | p in r && q in multiset(PlansOf(plans, userId)) - multiset(r) :: q.createdAt <= p.createdAt
  {
    var own := PlansOf(plans, userId);
    var sorted := SortByDate(own);
    PlansOfMeaning(plans, userId);
    SortByDateSpec(own);
    LimitKeepsNewest(sorted, limit);
    var r := Limit(sorted, limit);
    forall p | p in r ensures p in plans && p.userId == userId {
      assert p in multiset(r);
      assert p in multiset(own);
    }
  }

  /** The plan test: two plans of one user, then `get_by_user` with the default limit returns both. */
  lemma TwoPlansListed(plans: seq<Plan>, a: Plan, b: Plan)
    requires a.userId == b.userId && PlansOf(plans, a.userId) == []
    ensures |UserPlans(plans + [a] + [b], a.userId, DefaultPlanLimit)| == 2
  {
    PlansOfAppend(plans, a, a.userId);
    PlansOfAppend(plans + [a], b, a.userId);
    GetByUserMeaning(plans + [a] + [b], a.userId, DefaultPlanLimit);
  }
}
