/** The presence board: the fetched roster of profiles, each classified as
    online when it was seen within the last minute, and the online count. */
module OnlineStudents {
  import opened Backend

  /** A row of the profiles table; timestamps are milliseconds since the
      epoch (`new Date(...).getTime()`). */
  datatype Profile = Profile(
    id: string,
    userId: string,
    name: string,
    avatarColor: string,
    lastSeenAt: int,
    createdAt: int)

  /** A profile counts as online for this many milliseconds after it was last seen. */
  const OnlineWindow: int := 60000

  /** `isOnline` at the instant `now` (`Date.now()`). */
  predicate IsOnline(lastSeen: int, now: int): (online: bool)
    ensures online <==> lastSeen > now - 60000
  {
    now - lastSeen < OnlineWindow
  }

  /** The boundary: seen exactly a minute ago is offline, a millisecond
      less is online, and a last-seen time in the future is online. */
  lemma OnlineBoundary(lastSeen: int)
    ensures !IsOnline(lastSeen, lastSeen + 60000)
    ensures IsOnline(lastSeen, lastSeen + 59999)
    ensures forall now :: now <= lastSeen ==> IsOnline(lastSeen, now)
  {
  }

  /** Once offline, a profile stays offline as time passes (until it is
      seen again). */
  lemma OfflineStaysOffline(lastSeen: int, t: int, later: int)
    requires t <= later && !IsOnline(lastSeen, t)
    ensures !IsOnline(lastSeen, later)
  {
  }

  /** `profiles.filter(p => isOnline(p.last_seen_at))`. */
  function OnlineProfiles(ps: seq<Profile>, now: int): (r: seq<Profile>)
    ensures |r| <= |ps|
    ensures forall p :: p in r <==> p in ps && IsOnline(p.lastSeenAt, now)
  {
    if ps == [] then []
    else (if IsOnline(ps[0].lastSeenAt, now) then [ps[0]] else []) + OnlineProfiles(ps[1..], now)
  }

  /** `onlineCount`: never more than the displayed total `profiles.length`. */
  function OnlineCount(ps: seq<Profile>, now: int): (n: nat)
    ensures n <= |ps|
  {
    |OnlineProfiles(ps, now)|
  }

  /** The count is the number of profiles whose card shows them online: all
      of them when every one is online, none when none is. */
  lemma {:induction false} OnlineCountExtremes(ps: seq<Profile>, now: int)
    ensures (forall i :: 0 <= i < |ps| ==> IsOnline(ps[i].lastSeenAt, now)) ==> OnlineCount(ps, now) == |ps|
    ensures (forall i :: 0 <= i < |ps| ==> !IsOnline(ps[i].lastSeenAt, now)) ==> OnlineCount(ps, now) == 0
  {
    if ps != [] {
      OnlineCountExtremes(ps[1..], now);
    }
  }

  /** Counting splits over concatenation of rosters. */
  lemma {:induction false} OnlineCountConcat(a: seq<Profile>, b: seq<Profile>, now: int)
    ensures OnlineCount(a + b, now) == OnlineCount(a, now) + OnlineCount(b, now)
  {
    if a != [] {
      assert (a + b)[1..] == a[1..] + b;
      OnlineCountConcat(a[1..], b, now);
    } else {
      assert a + b == b;
    }
  }

  /** As time passes with no new presence, the online count can only fall. */
  lemma {:induction false} OnlineCountMonotone(ps: seq<Profile>, t: int, later: int)
    requires t <= later
    ensures OnlineCount(ps, later) <= OnlineCount(ps, t)
  {
    if ps != [] {
      OnlineCountMonotone(ps[1..], t, later);
    }
  }

  class Roster {
    var profiles: seq<Profile>
    var loading: bool

    /** The state on mount, before the first fetch completes. */
    constructor ()
      ensures profiles == [] && loading
    {
      profiles := [];
      loading := true;
    }

    /** The online count shown at the instant `now`. */
    function ShownOnlineCount(now: int): (n: nat)
      reads this
      ensures n <= |profiles|
    {
      OnlineCount(profiles, now)
    }

    /** `fetchProfiles`, given the query's outcome: rows replace the roster,
        `null` data keeps the previous one; a rejected request ends the
        handler before `loading` is cleared. */
    method FetchProfiles(response: Response<Profile>)
      modifies this
      ensures response.Data? ==> profiles == response.rows
      ensures !response.Data? ==> profiles == old(profiles)
      ensures loading == (response.Rejected? && old(loading))
    {
      if response.Rejected? {
        return;
      }
      if response.Data? {
        profiles := response.rows;
      }
      loading := false;
    }
  }
}
