/**
 * Properties of sequences of operations: a follow followed by a poll, a
 * forget followed by a late poll, and the identifier-level blind spot.
 */
module Lifecycle {
  import opened Basics
  import opened Tracks
  import opened Messages
  import opened Store
  import opened Detector
  import opened Commands

  /**
   * The `{}` written by a follow is truthy and never equals an identifier, so
   * the first poll after a follow that returns a track notifies rather than
   * seeds: the user's current track is announced at once.
   */
  lemma FirstPollAfterFollowNotifies(cfg: Config, r: Registry, origin: string, requester: string,
                                     user: string, status: int, pollStatus: int, t: Track)
    requires Valid(r) && status != 404 && pollStatus < 400
    ensures var f := Follow(cfg, Some(r), origin, requester, user, status);
            f.registry.Some? &&
            var p := CheckUser(cfg, f.registry.value, user, Response(pollStatus, Some(t)));
            p.sent == [Message(Room(cfg.notifyChannel), NowPlayingOf(user, t))] &&
            Lookup(p.registry, user) == Some(Song(SongIdentifier(t)))
  {
    FollowAdds(cfg, r, origin, requester, user, status);
    var f := Follow(cfg, Some(r), origin, requester, user, status);
    CheckUserNotify(cfg, f.registry.value, user, pollStatus, t);
  }

  /**
   * Following a user who is already followed resets the stored song to the
   * placeholder, so the track the user was already playing, which a poll
   * would have passed over, is announced again.
   */
  lemma RefollowRepeatsNotification(cfg: Config, r: Registry, origin: string, requester: string,
                                    user: string, status: int, pollStatus: int, t: Track)
    requires Valid(r) && status != 404 && pollStatus < 400
    requires Lookup(r, user) == Some(Song(SongIdentifier(t)))
    ensures CheckUser(cfg, r, user, Response(pollStatus, Some(t))).sent == []
    ensures var f := Follow(cfg, Some(r), origin, requester, user, status);
            f.registry.Some? &&
            CheckUser(cfg, f.registry.value, user, Response(pollStatus, Some(t))).sent ==
              [Message(Room(cfg.notifyChannel), NowPlayingOf(user, t))]
  {
    CheckUserNoChange(cfg, r, user, pollStatus, t);
    FirstPollAfterFollowNotifies(cfg, r, origin, requester, user, status, pollStatus, t);
  }

  /**
   * A poll answered after the user was forgotten takes the seed branch: it
   * silently re-creates the user's key, as the last key of the registry.
   */
  lemma LatePollAfterForgetReinserts(cfg: Config, r: Registry, origin: string, requester: string,
                                     user: string, pollStatus: int, t: Track)
    requires Valid(r) && pollStatus < 400
    ensures var f := Forget(cfg, Some(r), origin, requester, user);
            f.registry.Some? &&
            var p := CheckUser(cfg, f.registry.value, user, Response(pollStatus, Some(t)));
            p.sent == [] &&
            Lookup(p.registry, user) == Some(Song(SongIdentifier(t))) &&
            p.registry.order == f.registry.value.order + [user]
  {
    ForgetRemoves(cfg, r, origin, requester, user);
    var f := Forget(cfg, Some(r), origin, requester, user);
    CheckUserSeed(cfg, f.registry.value, user, pollStatus, t);
  }

  /**
   * A user last seen on `Daft Punk+Discovery+One More Time` who now plays
   * "Harder Better Faster Stronger" from the same album is announced, and the
   * new identifier is stored.
   */
  lemma ChangeDetectionExample(cfg: Config, r: Registry)
    requires Valid(r)
    requires Lookup(r, "alice") == Some(Song("Daft Punk+Discovery+One More Time"))
    ensures var t := Track(Some("Daft Punk"), Some("Discovery"), Some("Harder Better Faster Stronger"));
            var p := CheckUser(cfg, r, "alice", Response(200, Some(t)));
            Lookup(p.registry, "alice") == Some(Song("Daft Punk" + "+" + "Discovery" + "+" + "Harder Better Faster Stronger")) &&
            p.sent == [Message(Room(cfg.notifyChannel), NowPlaying("alice", "Daft Punk", "Harder Better Faster Stronger"))] &&
            Render(p.sent[0].text) == "\U{1F3A7} " + "alice" + ": " + "Daft Punk" + " - " + "Harder Better Faster Stronger"
  {
    var t := Track(Some("Daft Punk"), Some("Discovery"), Some("Harder Better Faster Stronger"));
    assert |SongIdentifier(t)| != |"Daft Punk+Discovery+One More Time"|;
    CheckUserNotify(cfg, r, "alice", 200, t);
  }

  /**
   * Because the identifier joins the fields with a bare `+`, a user moving
   * from artist `A+B` on album `C` to artist `A` on album `B+C` with the same
   * title is not announced.
   */
  lemma CollisionHidesChange(cfg: Config, r: Registry, user: string)
    requires Valid(r)
    requires Lookup(r, user) == Some(Song("A+B+C+D"))
    ensures var t1 := Track(Some("A+B"), Some("C"), Some("D"));
            var t2 := Track(Some("A"), Some("B+C"), Some("D"));
            TrackArtist(t1) != TrackArtist(t2) &&
            Lookup(r, user) == Some(Song(SongIdentifier(t1))) &&
            CheckUser(cfg, r, user, Response(200, Some(t2))) == Polled(r, [])
  {
    SongIdentifierCollision();
    var t2 := Track(Some("A"), Some("B+C"), Some("D"));
    assert SongIdentifier(t2) == "A+B+C+D";
    CheckUserNoChange(cfg, r, user, 200, t2);
  }
}
