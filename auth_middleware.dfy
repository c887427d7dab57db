/**
 * The request gates of the API: role authorisation, resource ownership,
 * and the per-key sliding-window rate limiter. A gate either passes the
 * request on or answers it with an HTTP status.
 */
module AuthMiddleware {
  import opened Wrappers

  const Unauthorized: nat := 401
  const Forbidden: nat := 403
  const NotFound: nat := 404
  const TooManyRequests: nat := 429
  const ServerError: nat := 500

  const AdminRole: string := "admin"

  /** The authenticated user a request carries: its id and role name. */
  datatype Caller = Caller(id: nat, role: string)

  datatype Gate = Next | Reject(status: nat)

  /** `authorize(...roles)`: 401 without a user, 403 for a role outside the list, otherwise pass. */
  function Authorize(user: Option<Caller>, roles: seq<string>): (g: Gate)
    ensures g == Reject(Unauthorized) <==> user.None?
    ensures g == Reject(Forbidden) <==> user.Some? && user.value.role !in roles
    ensures g == Next <==> user.Some? && user.value.role in roles
  {
    if user.None? then Reject(Unauthorized)
    else if user.value.role !in roles then Reject(Forbidden)
    else Next
  }

  /** Widening the list of roles never turns a pass into a rejection. */
  lemma AuthorizeMonotone(user: Option<Caller>, roles: seq<string>, more: seq<string>)
    requires Authorize(user, roles) == Next
    ensures Authorize(user, roles + more) == Next && Authorize(user, more + roles) == Next
  {
  }

  /** What the ownership check reads of a resource: its id and, for models other than users, its owner field. */
  datatype OwnedResource = OwnedResource(id: nat, owner: Option<nat>)

  /** The owner field: the document's own id for the user model, its `owner` otherwise. */
  function OwnerOf(resource: OwnedResource, isUserModel: bool): Option<nat>
  {
    if isUserModel then Some(resource.id) else resource.owner
  }

  /**
   * `checkOwnership`: 404 for a missing resource; an admin passes; anyone
   * else passes exactly when the owner field is their id, and gets 403
   * otherwise. A missing caller or owner field throws, and the handler's
   * catch answers 500.
   */
  function CheckOwnership(resource: Option<OwnedResource>, isUserModel: bool, caller: Option<Caller>): (g: Gate)
    ensures resource.None? ==> g == Reject(NotFound)
    ensures g == Next <==>
      resource.Some? && caller.Some? &&
      (caller.value.role == AdminRole || OwnerOf(resource.value, isUserModel) == Some(caller.value.id))
    ensures g == Reject(Forbidden) <==>
      resource.Some? && caller.Some? && caller.value.role != AdminRole &&
      OwnerOf(resource.value, isUserModel).Some? && OwnerOf(resource.value, isUserModel).value != caller.value.id
  {
    if resource.None? then Reject(NotFound)
    else if caller.None? then Reject(ServerError)
    else if caller.value.role == AdminRole then Next
    else
      var owner := OwnerOf(resource.value, isUserModel);
      if owner.None? then Reject(ServerError)
      else if owner.value != caller.value.id then Reject(Forbidden)
      else Next
  }

  /** On the user model a non-admin may reach exactly its own document. */
  lemma UsersReachOnlyThemselves(resource: OwnedResource, caller: Caller)
    requires caller.role != AdminRole
    ensures CheckOwnership(Some(resource), true, Some(caller)) == Next <==> resource.id == caller.id
  {
  }

  const DefaultMaxAttempts: int := 5
  const DefaultWindowMs: int := 15 * 60 * 1000

  /** The timestamps strictly after `windowStart`, every copy of each; an ascending list stays ascending. */
  function Recent(ts: seq<int>, windowStart: int): (r: seq<int>)
    ensures |r| <= |ts|
    ensures forall i :: 0 <= i < |r| ==> r[i] > windowStart
    ensures forall x :: multiset(r)[x] == if x > windowStart then multiset(ts)[x] else 0
  {
    if ts == [] then []
    else
      var head := if ts[0] > windowStart then [ts[0]] else [];
      var tail := Recent(ts[1..], windowStart);
      assert multiset(ts) == multiset{ts[0]} + multiset(ts[1..]) by {
        assert ts == [ts[0]] + ts[1..];
      }
      assert multiset(head + tail) == multiset(head) + multiset(tail);
      head + tail
  }

  /** Timestamps in the order they were recorded: never decreasing. */
  predicate Ascending(ts: seq<int>)
  {
    forall i, j :: 0 <= i < j < |ts| ==> ts[i] <= ts[j]
  }

  /** Pruning keeps the recorded order: a list of ascending timestamps stays ascending. */
  lemma {:induction false} RecentKeepsOrder(ts: seq<int>, windowStart: int)
    requires Ascending(ts)
    ensures Ascending(Recent(ts, windowStart))
  {
    if ts != [] {
      RecentKeepsOrder(ts[1..], windowStart);
      var tail := Recent(ts[1..], windowStart);
      assert forall k :: 0 <= k < |tail| ==> ts[0] <= tail[k] by {
        forall k | 0 <= k < |tail|
          ensures ts[0] <= tail[k]
        {
          assert tail[k] in multiset(tail);
          assert tail[k] in multiset(ts[1..]);
        }
      }
    }
  }

  /** Pruning keeps a list whose every timestamp is recent as it is. */
  lemma {:induction false} RecentKeepsFresh(ts: seq<int>, windowStart: int)
    requires forall i :: 0 <= i < |ts| ==> ts[i] > windowStart
    ensures Recent(ts, windowStart) == ts
  {
    if ts != [] {
      RecentKeepsFresh(ts[1..], windowStart);
    }
  }

  /** Pruning twice, the second time from a later start, is pruning once from that later start. */
  lemma {:induction false} RecentTwice(ts: seq<int>, earlier: int, later: int)
    requires earlier <= later
    ensures Recent(Recent(ts, earlier), later) == Recent(ts, later)
  {
    if ts != [] {
      RecentTwice(ts[1..], earlier, later);
      var once := Recent(ts, earlier);
      if ts[0] > earlier {
        assert once == [ts[0]] + Recent(ts[1..], earlier);
        assert once[0] == ts[0] && once[1..] == Recent(ts[1..], earlier);
        assert Recent(once, later) == (if ts[0] > later then [ts[0]] else []) + Recent(once[1..], later);
      } else {
        assert once == Recent(ts[1..], earlier);
      }
    }
  }

  /** The limiter a `rateLimit(maxAttempts, windowMs)` call creates, with its map of timestamp lists. */
  class RateLimiter {
    const maxAttempts: int
    const windowMs: int
    var attempts: map<string, seq<int>>

    /** No stored list grows past the limit (none at all grows when the limit is not positive). */
    ghost predicate Valid()
      reads this
    {
      forall key :: key in attempts ==> |attempts[key]| <= Cap()
    }

    function Cap(): nat
    {
      if maxAttempts > 0 then maxAttempts else 0
    }

    constructor (maxAttempts: int, windowMs: int)
      ensures Valid() && attempts == map[]
      ensures this.maxAttempts == maxAttempts && this.windowMs == windowMs
    {
      this.maxAttempts := maxAttempts;
      this.windowMs := windowMs;
      attempts := map[];
    }

    /** The list kept for `key` after pruning at instant `now`. */
    function Retained(key: string, now: int): seq<int>
      reads this
    {
      if key in attempts then Recent(attempts[key], now - windowMs) else []
    }

    /**
     * One request from `key` at `now`: prune (or start) the key's list; with
     * `maxAttempts` or more left, reject and record only the pruning;
     * otherwise append `now` and let the request through.
     */
    method Hit(key: string, now: int) returns (allowed: bool)
      requires Valid()
      modifies this
      ensures Valid()
      ensures allowed <==> |old(Retained(key, now))| < maxAttempts
      ensures attempts == old(attempts)[key := if allowed then old(Retained(key, now)) + [now] else old(Retained(key, now))]
      ensures forall other :: other != key ==> (other in attempts <==> other in old(attempts))
      ensures forall other :: other != key && other in attempts ==> attempts[other] == old(attempts)[other]
    {
      var windowStart := now - windowMs;
      if key in attempts {
        attempts := attempts[key := Recent(attempts[key], windowStart)];
      } else {
        attempts := attempts[key := []];
      }
      var userAttempts := attempts[key];
      if |userAttempts| >= maxAttempts {
        return false;
      }
      attempts := attempts[key := userAttempts + [now]];
      return true;
    }
  }

  /**
   * Once a key holds `maxAttempts` timestamps that are all still inside the
   * window at `now`, its next request is refused.
   */
  lemma FullWindowRefuses(ts: seq<int>, maxAttempts: int, windowMs: int, now: int)
    requires |ts| == maxAttempts
    requires forall i :: 0 <= i < |ts| ==> ts[i] > now - windowMs
    ensures !(|Recent(ts, now - windowMs)| < maxAttempts)
  {
    RecentKeepsFresh(ts, now - windowMs);
  }
}
