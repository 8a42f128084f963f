/**
 * The change detector: one poll of one user (`checkUserForNewActivity`) and
 * a pass over every followed user (`runChecksForAllUsers`).
 */
module Detector {
  import opened Basics
  import opened Tracks
  import opened Messages
  import opened Store

  /**
   * What the HTTP call for one user came back with: the status code and, for
   * a status below 400, the first element of `recenttracks.track` (None when
   * the list is empty).
   */
  datatype Response = Response(status: int, track: Option<Track>)

  /** The three outcomes of comparing the stored value with the new song identifier. */
  datatype Action = NoChange | Seed | Notify

  /**
   * The decision of the poll handler. The stored value is first tested for
   * truthiness and strict equality with the identifier, then for falsiness;
   * everything else, the `{}` placeholder included, notifies.
   */
  function Decide(stored: Option<Entry>, songId: string): (a: Action)
    ensures a == NoChange <==> songId != "" && stored == Some(Song(songId))
    ensures a == Seed <==> stored == None || stored == Some(Song(""))
    ensures a == Notify <==> stored.Some? && Truthy(stored.value) && stored.value != Song(songId)
  {
    if stored.Some? && Truthy(stored.value) && stored.value == Song(songId) then NoChange
    else if stored.None? || !Truthy(stored.value) then Seed
    else Notify
  }

  /** The registry after a poll and the messages the poll posted, in order. */
  datatype Polled = Polled(registry: Registry, sent: seq<Message>)

  /**
   * `checkUserForNewActivity` once its HTTP response is in. It changes at most
   * the polled user's entry, never drops a key, adds the user's key (last)
   * only when it was missing, posts at most one message and keeps every
   * stored value truthy.
   */
  function CheckUser(cfg: Config, r: Registry, user: string, resp: Response): (p: Polled)
    requires Valid(r)
    ensures Valid(p.registry)
    ensures forall k :: k != user ==> Lookup(p.registry, k) == Lookup(r, k)
    ensures p.registry.order == r.order || (user !in r.entries && p.registry.order == r.order + [user])
    ensures |p.sent| <= 1
    ensures AllTruthy(r) ==> AllTruthy(p.registry)
  {
    if resp.status == 429 then
      Polled(r, [Message(cfg.errorChannel, RateLimited(user))])
    else if resp.status >= 400 then
      Polled(r, [Message(cfg.errorChannel, Failing(user, resp.status))])
    else
      match resp.track
      case None => Polled(r, [])
      case Some(t) =>
        var id := SongIdentifier(t);
        match Decide(Lookup(r, user), id)
        case NoChange => Polled(r, [])
        case Seed => Polled(Put(r, user, Song(id)), [])
        case Notify => Polled(Put(r, user, Song(id)), [Message(Room(cfg.notifyChannel), NowPlayingOf(user, t))])
  }

  /** The same song as last time: nothing is stored and nothing is posted. */
  lemma CheckUserNoChange(cfg: Config, r: Registry, user: string, status: int, t: Track)
    requires Valid(r) && status < 400
    requires Lookup(r, user) == Some(Song(SongIdentifier(t)))
    ensures CheckUser(cfg, r, user, Response(status, Some(t))) == Polled(r, [])
  {
  }

  /** A missing or falsy stored value: the identifier is stored and nothing is posted. */
  lemma CheckUserSeed(cfg: Config, r: Registry, user: string, status: int, t: Track)
    requires Valid(r) && status < 400
    requires Lookup(r, user) == None || Lookup(r, user) == Some(Song(""))
    ensures var p := CheckUser(cfg, r, user, Response(status, Some(t)));
            Lookup(p.registry, user) == Some(Song(SongIdentifier(t))) && p.sent == []
  {
  }

  /**
   * The `{}` placeholder or a different earlier song: the identifier is stored
   * and exactly one now-playing message goes to the notification room.
   */
  lemma CheckUserNotify(cfg: Config, r: Registry, user: string, status: int, t: Track)
    requires Valid(r) && status < 400
    requires Lookup(r, user).Some? && Truthy(Lookup(r, user).value)
    requires Lookup(r, user) != Some(Song(SongIdentifier(t)))
    ensures var p := CheckUser(cfg, r, user, Response(status, Some(t)));
            Lookup(p.registry, user) == Some(Song(SongIdentifier(t))) &&
            p.sent == [Message(Room(cfg.notifyChannel), NowPlayingOf(user, t))]
  {
  }

  /**
   * A rate limit, any other status of 400 or more, and an empty track list
   * leave the registry as it was; the first two post one report to the error
   * room and nothing else.
   */
  lemma CheckUserFailures(cfg: Config, r: Registry, user: string, resp: Response)
    requires Valid(r)
    ensures resp.status == 429 ==>
              CheckUser(cfg, r, user, resp) == Polled(r, [Message(cfg.errorChannel, RateLimited(user))])
    ensures resp.status >= 400 && resp.status != 429 ==>
              CheckUser(cfg, r, user, resp) == Polled(r, [Message(cfg.errorChannel, Failing(user, resp.status))])
    ensures resp.status < 400 && resp.track.None? ==>
              CheckUser(cfg, r, user, resp) == Polled(r, [])
  {
  }

  /**
   * With every stored value truthy, the silent seed happens exactly when the
   * user's key is missing, which after a follow it never is.
   */
  lemma SeedOnlyWhenAbsent(r: Registry, user: string, t: Track)
    requires AllTruthy(r)
    ensures Decide(Lookup(r, user), SongIdentifier(t)) == Seed <==> user !in r.entries
  {
    if user in r.entries {
      assert Truthy(r.entries[user]);
    }
  }

  /** What a poll does to a user depends only on that user's stored value. */
  lemma CheckUserLocal(cfg: Config, r1: Registry, r2: Registry, user: string, resp: Response)
    requires Valid(r1) && Valid(r2)
    requires Lookup(r1, user) == Lookup(r2, user)
    ensures Lookup(CheckUser(cfg, r1, user, resp).registry, user) == Lookup(CheckUser(cfg, r2, user, resp).registry, user)
    ensures CheckUser(cfg, r1, user, resp).sent == CheckUser(cfg, r2, user, resp).sent
  {
  }

  /** Polling again with the same answer finds the same song: no change, no message. */
  lemma CheckUserIdempotent(cfg: Config, r: Registry, user: string, resp: Response)
    requires Valid(r)
    ensures var p := CheckUser(cfg, r, user, resp);
            resp.status < 400 ==> CheckUser(cfg, p.registry, user, resp) == Polled(p.registry, [])
  {
    var p := CheckUser(cfg, r, user, resp);
    if resp.status < 400 && resp.track.Some? {
      var id := SongIdentifier(resp.track.value);
      assert Lookup(p.registry, user) == Some(Song(id)) || (Lookup(p.registry, user) == Lookup(r, user) == Some(Song(id)));
    }
  }

  /**
   * One pass of the poll over a snapshot of the keys, `users[i]` answered by
   * `resps[i]`, each handled in turn on the registry the previous ones left.
   * Keys outside the snapshot are untouched; keys in the registry stay in it
   * and in their place.
   */
  function RunChecks(cfg: Config, r: Registry, users: seq<string>, resps: seq<Response>): (p: Polled)
    requires Valid(r) && |users| == |resps|
    ensures Valid(p.registry)
    ensures forall k :: k !in users ==> Lookup(p.registry, k) == Lookup(r, k)
    ensures (forall k :: k in users ==> k in r.entries) ==> p.registry.order == r.order
    ensures AllTruthy(r) ==> AllTruthy(p.registry)
    decreases |users|
  {
    if users == [] then Polled(r, [])
    else
      var n := |users| - 1;
      var prev := RunChecks(cfg, r, users[..n], resps[..n]);
      var last := CheckUser(cfg, prev.registry, users[n], resps[n]);
      Polled(last.registry, prev.sent + last.sent)
  }

  /** Extending the pass by the next key of the snapshot polls that key on the registry the pass left. */
  lemma RunChecksStep(cfg: Config, r: Registry, users: seq<string>, resps: seq<Response>, i: nat)
    requires Valid(r) && |users| == |resps| && i < |users|
    ensures var prev := RunChecks(cfg, r, users[..i], resps[..i]);
            var last := CheckUser(cfg, prev.registry, users[i], resps[i]);
            RunChecks(cfg, r, users[..i + 1], resps[..i + 1]) == Polled(last.registry, prev.sent + last.sent)
  {
    assert users[..i + 1][..i] == users[..i] && resps[..i + 1][..i] == resps[..i];
  }

  /** The messages each user's poll would post on the registry as the pass found it, in snapshot order. */
  function IndependentSent(cfg: Config, r: Registry, users: seq<string>, resps: seq<Response>): seq<Message>
    requires Valid(r) && |users| == |resps|
    decreases |users|
  {
    if users == [] then []
    else
      var n := |users| - 1;
      IndependentSent(cfg, r, users[..n], resps[..n]) + CheckUser(cfg, r, users[n], resps[n]).sent
  }

  /**
   * Isolation of the users of one pass: each user ends with the entry its own
   * poll alone would give it, whatever the other users' answers were.
   */
  lemma {:induction false} RunChecksEntry(cfg: Config, r: Registry, users: seq<string>, resps: seq<Response>, i: nat)
    requires Valid(r) && |users| == |resps| && Distinct(users) && i < |users|
    ensures Lookup(RunChecks(cfg, r, users, resps).registry, users[i]) ==
            Lookup(CheckUser(cfg, r, users[i], resps[i]).registry, users[i])
    decreases |users|
  {
    var n := |users| - 1;
    var pre, preResps := users[..n], resps[..n];
    var prev := RunChecks(cfg, r, pre, preResps);
    var last := CheckUser(cfg, prev.registry, users[n], resps[n]);
    assert RunChecks(cfg, r, users, resps).registry == last.registry;
    if i < n {
      DistinctPrefix(users, n);
      RunChecksEntry(cfg, r, pre, preResps, i);
      assert pre[i] == users[i] && preResps[i] == resps[i];
      assert users[i] != users[n];
    } else {
      NotInPrefix(users, n);
      CheckUserLocal(cfg, prev.registry, r, users[n], resps[n]);
    }
  }

  /**
   * The pass posts what the users' polls would post one by one on the
   * registry as the pass found it, so a failure for one user changes no
   * other user's messages.
   */
  lemma {:induction false} RunChecksSent(cfg: Config, r: Registry, users: seq<string>, resps: seq<Response>)
    requires Valid(r) && |users| == |resps| && Distinct(users)
    ensures RunChecks(cfg, r, users, resps).sent == IndependentSent(cfg, r, users, resps)
    decreases |users|
  {
    if users != [] {
      var n := |users| - 1;
      var pre, preResps := users[..n], resps[..n];
      DistinctPrefix(users, n);
      RunChecksSent(cfg, r, pre, preResps);
      var prev := RunChecks(cfg, r, pre, preResps);
      NotInPrefix(users, n);
      CheckUserLocal(cfg, prev.registry, r, users[n], resps[n]);
    }
  }

  lemma DistinctPrefix(s: seq<string>, n: nat)
    requires Distinct(s) && n <= |s|
    ensures Distinct(s[..n])
  {
    forall i, j | 0 <= i < j < n ensures s[..n][i] != s[..n][j] {
      assert s[..n][i] == s[i] && s[..n][j] == s[j];
    }
  }

  lemma NotInPrefix(s: seq<string>, n: nat)
    requires Distinct(s) && n < |s|
    ensures s[n] !in s[..n]
  {
    forall i | 0 <= i < n ensures s[..n][i] != s[n] {
      assert s[..n][i] == s[i];
    }
  }
}
