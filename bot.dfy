/**
 * The running script as an object: the brain's registry, updated in place by
 * the commands and the poll, and the messages posted so far.
 */
module Bot {
  import opened Basics
  import opened Tracks
  import opened Messages
  import opened Store
  import Detector
  import Commands

  class Notifier {
    /** The notification and error rooms, read once at start-up. */
    const cfg: Config
    /** Whether `robot.brain.data.last_fm_notifier_users` is defined at all. */
    var defined: bool
    /** Its keys in enumeration order. */
    var order: seq<string>
    /** Its values. */
    var entries: map<string, Entry>
    /** Every message sent so far, through `message.send` or `robot.messageRoom`. */
    var outbox: seq<Message>

    ghost predicate Valid()
      reads this
    {
      defined ==> Store.Valid(Registry(order, entries))
    }

    /** The registry as a value, None while it is undefined. */
    function Users(): Option<Registry>
      reads this
    {
      if defined then Some(Registry(order, entries)) else None
    }

    /**
     * Loading the script: the registry is wiped to `{}` unless the brain's
     * `stock_checker_holdings` is truthy; then it is whatever the brain held
     * under `last_fm_notifier_users` at that moment.
     */
    constructor (cfg: Config, stockCheckerHoldings: bool, atLoad: Option<Registry>)
      requires atLoad.Some? ==> Store.Valid(atLoad.value)
      ensures Valid() && this.cfg == cfg && outbox == []
      ensures Users() == Commands.InitUsers(stockCheckerHoldings, atLoad)
    {
      this.cfg := cfg;
      outbox := [];
      if !stockCheckerHoldings {
        defined, order, entries := true, [], map[];
      } else if atLoad.Some? {
        defined, order, entries := true, atLoad.value.order, atLoad.value.entries;
      } else {
        defined, order, entries := false, [], map[];
      }
    }

    /** `listFollowedUsers`: replies with the current keys, changing nothing else. */
    method ListFollowedUsers(origin: string)
      requires Valid() && defined
      modifies this`outbox
      ensures outbox == old(outbox) + [Message(Room(origin), Listing(order))]
    {
      outbox := outbox + [Message(Room(origin), Listing(order))];
    }

    /** The follow handler, once the verification request answered `status`. */
    method Follow(origin: string, requester: string, user: string, status: int)
      requires Valid()
      modifies this
      ensures Valid()
      ensures var o := Commands.Follow(cfg, old(Users()), origin, requester, user, status);
              Users() == o.registry && outbox == old(outbox) + o.sent
    {
      if status == 404 {
        outbox := outbox + [Message(Room(origin), NotFound(user))];
      } else if defined {
        if user !in entries {
          order := order + [user];
        }
        entries := entries[user := Placeholder];
        outbox := outbox + [Message(Room(origin), Following(user))];
        ListFollowedUsers(origin);
        if origin != cfg.notifyChannel {
          outbox := outbox + [Message(Room(cfg.notifyChannel), Added(requester, user))];
        }
      }
    }

    /** The forget handler. */
    method Forget(origin: string, requester: string, user: string)
      requires Valid()
      modifies this
      ensures Valid()
      ensures var o := Commands.Forget(cfg, old(Users()), origin, requester, user);
              Users() == o.registry && outbox == old(outbox) + o.sent
    {
      if defined {
        WithoutDistinct(order, user);
        order := Without(order, user);
        entries := entries - {user};
        outbox := outbox + [Message(Room(origin), Forgotten)];
        ListFollowedUsers(origin);
        if origin != cfg.notifyChannel {
          outbox := outbox + [Message(Room(cfg.notifyChannel), Removed(requester, user))];
        }
      }
    }

    /** The show handler. */
    method ShowUsers(origin: string)
      requires Valid()
      modifies this`outbox
      ensures outbox == old(outbox) + Commands.ShowUsers(Users(), origin)
    {
      if defined {
        ListFollowedUsers(origin);
      }
    }

    /** `checkUserForNewActivity`, once the request for `user` answered `resp`. */
    method CheckUserForNewActivity(user: string, resp: Detector.Response)
      requires Valid() && defined
      modifies this`order, this`entries, this`outbox
      ensures Valid()
      ensures var p := Detector.CheckUser(cfg, old(Registry(order, entries)), user, resp);
              Registry(order, entries) == p.registry && outbox == old(outbox) + p.sent
    {
      if resp.status == 429 {
        outbox := outbox + [Message(cfg.errorChannel, RateLimited(user))];
        return;
      }
      if resp.status >= 400 {
        outbox := outbox + [Message(cfg.errorChannel, Failing(user, resp.status))];
        return;
      }
      if resp.track.Some? {
        var track := resp.track.value;
        var songId := SongIdentifier(track);
        if user in entries && Truthy(entries[user]) && entries[user] == Song(songId) {
          // the same song as last time
        } else if user !in entries || !Truthy(entries[user]) {
          if user !in entries {
            order := order + [user];
          }
          entries := entries[user := Song(songId)];
        } else {
          entries := entries[user := Song(songId)];
          outbox := outbox + [Message(Room(cfg.notifyChannel), NowPlayingOf(user, track))];
        }
      }
    }

    /**
     * `runChecksForAllUsers`: polls every key of a snapshot taken first, the
     * i-th key answered by `responses[i]`. With the registry undefined,
     * `Object.keys` throws and nothing happens.
     */
    method RunChecksForAllUsers(responses: seq<Detector.Response>)
      requires Valid()
      requires defined ==> |responses| == |order|
      modifies this`order, this`entries, this`outbox
      ensures Valid()
      ensures !old(defined) ==> order == old(order) && entries == old(entries) && outbox == old(outbox)
      ensures old(defined) ==>
                var p := Detector.RunChecks(cfg, old(Registry(order, entries)), old(order), responses);
                Registry(order, entries) == p.registry && outbox == old(outbox) + p.sent
    {
      if !defined {
        return;
      }
      var keys := order;
      ghost var start := Registry(order, entries);
      ghost var sent := outbox;
      ghost var p := Detector.Polled(start, []);
      var i := 0;
      while i < |keys|
        invariant 0 <= i <= |keys|
        invariant defined && Valid()
        invariant p == Detector.RunChecks(cfg, start, keys[..i], responses[..i])
        invariant Registry(order, entries) == p.registry && outbox == sent + p.sent
      {
        CheckUserForNewActivity(keys[i], responses[i]);
        ghost var last := Detector.CheckUser(cfg, p.registry, keys[i], responses[i]);
        assert Detector.RunChecks(cfg, start, keys[..i + 1], responses[..i + 1]) == Detector.Polled(last.registry, p.sent + last.sent) by {
          Detector.RunChecksStep(cfg, start, keys, responses, i);
        }
        p := Detector.Polled(last.registry, p.sent + last.sent);
        i := i + 1;
      }
      assert keys[..i] == keys && responses[..i] == responses;
    }
  }
}
