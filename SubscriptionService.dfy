/**
 * `SubscriptionService` (app/services/subscription.py): whether a user's
 * subscription is active, and granting days of access.
 *
 * Instants are integers counting microseconds, the resolution of Python's
 * `datetime`; `now` is passed in where the source reads the clock. The
 * expiry is stored as the text `str(datetime)` and read back with
 * `strptime(s.split(".")[0], "%Y-%m-%d %H:%M:%S")`, which drops the
 * fraction of a second.
 */
module SubscriptionService {
  import opened Wrappers
  import opened Repository

  const MicrosPerSecond := 1_000_000
  /** `timedelta(days=1)`. */
  const MicrosPerDay := 86400 * MicrosPerSecond

  /** The instant with its fraction of a second dropped. */
  function WholeSeconds(t: int): (r: int)
    ensures r <= t < r + MicrosPerSecond
    ensures r % MicrosPerSecond == 0
  {
    t - t % MicrosPerSecond
  }

  /** The stored expiry as `check_access` and `grant_access` read it; `None` when there is none or it will not parse. */
  function ReadEnd(stored: StoredEnd): Option<int> {
    match stored
    case Written(t) => Some(WholeSeconds(t))
    case _ => None
  }

  /** The expiry read from the user's row, if there is a row. */
  function CurrentEnd(user: Option<User>): Option<int> {
    if user.Some? then ReadEnd(user.value.subscriptionEnd) else None
  }

  /** The decision of `check_access` on the row it read. */
  predicate HasAccess(user: Option<User>, now: int) {
    match CurrentEnd(user)
    case None => false
    case Some(t) => t > now
  }

  function Max(a: int, b: int): int {
    if a >= b then a else b
  }

  /** `timedelta(days=days)`. */
  function Days(days: int): int {
    days * MicrosPerDay
  }

  lemma DaysAtLeast(days: int)
    requires days >= 1
    ensures Days(days) >= MicrosPerDay
  {
  }

  /** The expiry `grant_access` computes: stacked onto an active one, otherwise counted from now. */
  function GrantedEnd(user: Option<User>, now: int, days: int): int {
    var current := CurrentEnd(user);
    if current.Some? && current.value > now then current.value + Days(days)
    else now + Days(days)
  }

  /** `check_access`: a decision on the user's row, which it only reads. */
  method CheckAccess(repo: UserRepository, userId: int, now: int) returns (granted: bool)
    requires repo.Valid()
    ensures granted == HasAccess(Find(repo.rows, userId), now)
  {
    var user := repo.GetByTelegramId(userId);
    if user.None? {
      return false;
    }
    var subEnd := ReadEnd(user.value.subscriptionEnd);
    if subEnd.None? {
      return false;
    }
    granted := subEnd.value > now;
  }

  /** The row carries an expiry that, read to the second, lies after now. */
  predicate ActiveRow(u: User, now: int) {
    u.subscriptionEnd.Written? && WholeSeconds(u.subscriptionEnd.instant) > now
  }

  /** Over the whole table: access holds exactly when the user's row is active. */
  lemma AccessFromTable(rows: seq<User>, userId: int, now: int)
    requires UniqueTelegramIds(rows)
    ensures HasAccess(Find(rows, userId), now) <==>
      exists i | 0 <= i < |rows| :: rows[i].telegramId == userId && ActiveRow(rows[i], now)
  {
    if userId in IdsOf(rows) {
      var row :| 0 <= row < |rows| && IdsOf(rows)[row] == userId;
      FindUnique(rows, row);
      assert HasAccess(Find(rows, userId), now) <==> ActiveRow(rows[row], now);
    } else {
      assert forall i | 0 <= i < |rows| :: IdsOf(rows)[i] != userId;
    }
  }

  /**
   * `grant_access`: computes the new expiry from the row it read and writes
   * it onto that user's row; an unknown user gets an expiry back but no row changes.
   */
  method GrantAccess(repo: UserRepository, userId: int, days: int, now: int) returns (newEnd: int)
    requires repo.Valid()
    modifies repo
    ensures repo.Valid()
    ensures newEnd == GrantedEnd(Find(old(repo.rows), userId), now, days)
    ensures repo.rows == WithEnd(old(repo.rows), userId, newEnd)
  {
    var user := repo.GetByTelegramId(userId);
    var currentEnd := if user.Some? then ReadEnd(user.value.subscriptionEnd) else None;
    if currentEnd.Some? && currentEnd.value > now {
      newEnd := currentEnd.value + Days(days);
    } else {
      newEnd := now + Days(days);
    }
    repo.UpdateSubscription(userId, newEnd);
  }

  // --- check_access

  /** No row, no recorded expiry, or an expiry that will not parse: no access, and no failure. */
  lemma AccessFailsClosed(user: Option<User>, now: int)
    requires user.None? || user.value.subscriptionEnd == NoEnd || user.value.subscriptionEnd == Unreadable
    ensures !HasAccess(user, now)
  {
  }

  /**
   * With an expiry on record, access is granted exactly while the expiry,
   * read to the second, lies strictly after now: an expiry a full second
   * ahead grants, one not after now refuses.
   */
  lemma AccessIsStrictlyBeforeExpiry(u: User, t: int, now: int)
    requires u.subscriptionEnd == Written(t)
    ensures HasAccess(Some(u), now) <==> WholeSeconds(t) > now
    ensures t >= now + MicrosPerSecond ==> HasAccess(Some(u), now)
    ensures t <= now ==> !HasAccess(Some(u), now)
  {
  }

  /** Access, once lost, does not come back as time passes. */
  lemma AccessOnlyExpires(user: Option<User>, now: int, later: int)
    requires now <= later && HasAccess(user, later)
    ensures HasAccess(user, now)
  {
  }

  /** An expiry set a day in the past refuses access. */
  lemma ExpiredYesterday(u: User, now: int)
    requires u.subscriptionEnd == Written(now - Days(1))
    ensures !HasAccess(Some(u), now)
  {
    AccessIsStrictlyBeforeExpiry(u, now - Days(1), now);
  }

  // --- grant_access

  /**
   * The new expiry is `days` after the later of now and the active expiry: a
   * grant never shortens an active subscription and never starts in the past.
   */
  lemma {:induction false} GrantedEndFromLater(user: Option<User>, now: int, days: int)
    ensures GrantedEnd(user, now, days) == Max(now, CurrentEnd(user).GetOr(now)) + Days(days)
    ensures days >= 0 ==> GrantedEnd(user, now, days) >= now
    ensures HasAccess(user, now) && days >= 0 ==> GrantedEnd(user, now, days) >= CurrentEnd(user).value
  {
  }

  /** An active expiry T gives T + days. */
  lemma GrantStacks(user: Option<User>, now: int, days: int)
    requires HasAccess(user, now)
    ensures GrantedEnd(user, now, days) == CurrentEnd(user).value + Days(days)
  {
  }

  /** No row, no expiry, an unparsable one or one not after now: the grant counts from now. */
  lemma GrantRestarts(user: Option<User>, now: int, days: int)
    requires !HasAccess(user, now)
    ensures GrantedEnd(user, now, days) == now + Days(days)
  {
  }

  /** A grant of at least a day to a known user gives access at the same instant. */
  lemma GrantThenAccess(rows: seq<User>, userId: int, days: int, now: int)
    requires UniqueTelegramIds(rows) && userId in IdsOf(rows) && days >= 1
    ensures HasAccess(Find(WithEnd(rows, userId, GrantedEnd(Find(rows, userId), now, days)), userId), now)
  {
    var end := GrantedEnd(Find(rows, userId), now, days);
    GrantedEndFromLater(Find(rows, userId), now, days);
    DaysAtLeast(days);
    assert end >= now + MicrosPerSecond;
    WithEndFindsUpdated(rows, userId, end);
    var updated := Find(rows, userId).value.(subscriptionEnd := Written(end));
    assert Find(WithEnd(rows, userId, end), userId) == Some(updated);
    AccessIsStrictlyBeforeExpiry(updated, end, now);
  }

  /** A grant leaves every other user's row as it was. */
  lemma GrantTouchesOnlyThatUser(rows: seq<User>, userId: int, end: int, other: int)
    requires UniqueTelegramIds(rows) && other != userId
    ensures Find(WithEnd(rows, userId, end), other) == Find(rows, other)
  {
    WithEndFindsOther(rows, userId, end, other);
  }

  /** A grant to an unknown user changes no row. */
  lemma GrantUnknownUser(rows: seq<User>, userId: int, now: int, days: int)
    requires userId !in IdsOf(rows)
    ensures GrantedEnd(Find(rows, userId), now, days) == now + Days(days)
    ensures WithEnd(rows, userId, GrantedEnd(Find(rows, userId), now, days)) == rows
  {
    WithEndAbsent(rows, userId, GrantedEnd(Find(rows, userId), now, days));
  }

  /** `timedelta.days`: whole days, rounded down. */
  function WholeDays(d: int): (n: int)
    ensures n * MicrosPerDay <= d < (n + 1) * MicrosPerDay
  {
    d / MicrosPerDay
  }

  /**
   * Renewing a still-active subscription by 30 days moves its expiry by 30
   * days less the dropped fraction of a second: `timedelta.days` of the
   * difference is 30 when the old expiry fell on a whole second, 29 otherwise.
   */
  lemma RenewalAddsThirtyDays(u: User, end1: int, now2: int)
    requires u.subscriptionEnd == Written(end1) && WholeSeconds(end1) > now2
    ensures GrantedEnd(Some(u), now2, 30) - end1 == Days(30) - end1 % MicrosPerSecond
    ensures WholeDays(GrantedEnd(Some(u), now2, 30) - end1) == if end1 % MicrosPerSecond == 0 then 30 else 29
  {
    var d := GrantedEnd(Some(u), now2, 30) - end1;
    assert d == Days(30) - end1 % MicrosPerSecond;
    if end1 % MicrosPerSecond != 0 {
      assert 29 * MicrosPerDay <= d < 30 * MicrosPerDay;
    }
  }

  /**
   * The extension scenario: a known user is granted 30 days, then 30 more
   * within the next 29 days; the second expiry is 29 to 30 whole days after the first.
   */
  method GrantTwice(repo: UserRepository, userId: int, now1: int, now2: int) returns (end1: int, end2: int)
    requires repo.Valid() && userId in IdsOf(repo.rows)
    requires now1 <= now2 <= now1 + Days(29)
    modifies repo
    ensures repo.Valid()
    ensures 29 <= WholeDays(end2 - end1) <= 30
  {
    end1 := GrantAccess(repo, userId, 30, now1);
    GrantedEndFromLater(Find(old(repo.rows), userId), now1, 30);
    WithEndFindsUpdated(old(repo.rows), userId, end1);
    WithEndKeepsIds(old(repo.rows), userId, end1);
    var u := Find(repo.rows, userId).value;
    end2 := GrantAccess(repo, userId, 30, now2);
    RenewalAddsThirtyDays(u, end1, now2);
  }
}
