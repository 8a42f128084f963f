/**
 * The registry's initialisation and the three chat commands: follow, forget
 * and show. The registry is None when `last_fm_notifier_users` is undefined;
 * a command that touches it then throws a TypeError, which leaves everything
 * as it was and sends nothing.
 */
module Commands {
  import opened Basics
  import opened Messages
  import opened Store

  /** The registry after a command, and the messages the command sent, in order. */
  datatype Outcome = Outcome(registry: Option<Registry>, sent: seq<Message>)

  /**
   * Loading the script: the value the brain holds under
   * `last_fm_notifier_users` at that moment (`atLoad`, possibly nothing) is
   * replaced by `{}` unless the brain's unrelated `stock_checker_holdings`
   * value is truthy, in which case it is kept.
   */
  function InitUsers(stockCheckerHoldings: bool, atLoad: Option<Registry>): (r: Option<Registry>)
    ensures r == None <==> stockCheckerHoldings && atLoad == None
    ensures (atLoad.Some? ==> Valid(atLoad.value)) ==> (r.Some? ==> Valid(r.value))
  {
    if !stockCheckerHoldings then Some(Empty) else atLoad
  }

  /** Without the unrelated flag, loading the script leaves no user in the value the brain held at that moment. */
  lemma InitForgetsFollowedUsers(stockCheckerHoldings: bool, atLoad: Option<Registry>)
    ensures !stockCheckerHoldings ==>
              InitUsers(stockCheckerHoldings, atLoad).Some? &&
              forall k :: Lookup(InitUsers(stockCheckerHoldings, atLoad).value, k) == None
    ensures stockCheckerHoldings ==> InitUsers(stockCheckerHoldings, atLoad) == atLoad
  {
  }

  /** The announcement to the notification room, made only for a command issued in another room. */
  function Announce(cfg: Config, origin: string, text: Text): (m: seq<Message>)
    ensures m == [] <==> origin == cfg.notifyChannel
    ensures |m| == (if origin == cfg.notifyChannel then 0 else 1)
    ensures forall i :: 0 <= i < |m| ==> m[i] == Message(Room(cfg.notifyChannel), text)
  {
    if origin != cfg.notifyChannel then [Message(Room(cfg.notifyChannel), text)] else []
  }

  /**
   * `follow lastfm <user>` once its verification request answered `status`:
   * a 404 only replies that the user was not found; any other status stores
   * the `{}` placeholder, replies, lists the users and announces the change.
   */
  function Follow(cfg: Config, users: Option<Registry>, origin: string, requester: string, user: string, status: int): (o: Outcome)
    requires users.Some? ==> Valid(users.value)
    ensures o.registry.Some? <==> users.Some?
    ensures o.registry.Some? ==> Valid(o.registry.value)
    ensures users.Some? && AllTruthy(users.value) ==> AllTruthy(o.registry.value)
  {
    if status == 404 then
      Outcome(users, [Message(Room(origin), NotFound(user))])
    else
      match users
      case None => Outcome(None, [])
      case Some(r) =>
        var r' := Put(r, user, Placeholder);
        Outcome(Some(r'),
          [Message(Room(origin), Following(user)), Message(Room(origin), Listing(r'.order))]
          + Announce(cfg, origin, Added(requester, user)))
  }

  /** `forget lastfm <user>`: deletes the key, replies, lists the users and announces the change. */
  function Forget(cfg: Config, users: Option<Registry>, origin: string, requester: string, user: string): (o: Outcome)
    requires users.Some? ==> Valid(users.value)
    ensures o.registry.Some? <==> users.Some?
    ensures o.registry.Some? ==> Valid(o.registry.value)
    ensures users.Some? && AllTruthy(users.value) ==> AllTruthy(o.registry.value)
  {
    match users
    case None => Outcome(None, [])
    case Some(r) =>
      var r' := Remove(r, user);
      Outcome(Some(r'),
        [Message(Room(origin), Forgotten), Message(Room(origin), Listing(r'.order))]
        + Announce(cfg, origin, Removed(requester, user)))
  }

  /** `show lastfm users`: the listing, sent back to the room the command came from. */
  function ShowUsers(users: Option<Registry>, origin: string): (m: seq<Message>)
    ensures |m| == (if users.Some? then 1 else 0)
    ensures forall i :: 0 <= i < |m| ==> m[i] == Message(Room(origin), Listing(users.value.order))
  {
    match users
    case None => []
    case Some(r) => [Message(Room(origin), Listing(r.order))]
  }

  /** A follow whose request answered 404 changes nothing and only tells the requester. */
  lemma FollowNotFound(cfg: Config, users: Option<Registry>, origin: string, requester: string, user: string)
    requires users.Some? ==> Valid(users.value)
    ensures Follow(cfg, users, origin, requester, user, 404) == Outcome(users, [Message(Room(origin), NotFound(user))])
  {
  }

  /**
   * A follow whose request answered anything but 404 maps the user to the
   * placeholder, overwriting a stored song, touches no other user, confirms
   * and lists the users to the requester, and announces the addition in the
   * notification room exactly when the command came from another room.
   */
  lemma FollowAdds(cfg: Config, r: Registry, origin: string, requester: string, user: string, status: int)
    requires Valid(r) && status != 404
    ensures var o := Follow(cfg, Some(r), origin, requester, user, status);
            o.registry.Some? &&
            Lookup(o.registry.value, user) == Some(Placeholder) &&
            (forall k :: k != user ==> Lookup(o.registry.value, k) == Lookup(r, k)) &&
            (user in r.entries ==> o.registry.value.order == r.order) &&
            (user !in r.entries ==> o.registry.value.order == r.order + [user]) &&
            |o.sent| == 2 + (if origin != cfg.notifyChannel then 1 else 0) &&
            o.sent[0] == Message(Room(origin), Following(user)) &&
            o.sent[1] == Message(Room(origin), Listing(o.registry.value.order)) &&
            (origin != cfg.notifyChannel ==> o.sent[2] == Message(Room(cfg.notifyChannel), Added(requester, user))) &&
            (Message(Room(cfg.notifyChannel), Added(requester, user)) in o.sent <==> origin != cfg.notifyChannel)
  {
  }

  /** A follow while the registry is undefined throws before any reply: nothing happens. */
  lemma FollowUndefined(cfg: Config, origin: string, requester: string, user: string, status: int)
    requires status != 404
    ensures Follow(cfg, None, origin, requester, user, status) == Outcome(None, [])
  {
  }

  /**
   * A forget deletes the user's key whether or not it was there, touches no
   * other user, keeps the other keys in their order, acknowledges and lists
   * the users to the requester, and announces the removal in the
   * notification room exactly when the command came from another room.
   */
  lemma ForgetRemoves(cfg: Config, r: Registry, origin: string, requester: string, user: string)
    requires Valid(r)
    ensures var o := Forget(cfg, Some(r), origin, requester, user);
            o.registry.Some? &&
            Lookup(o.registry.value, user) == None &&
            (forall k :: k != user ==> Lookup(o.registry.value, k) == Lookup(r, k)) &&
            (user !in r.entries ==> o.registry.value.order == r.order) &&
            (forall i :: 0 <= i < |r.order| && r.order[i] == user ==>
               o.registry.value.order == r.order[..i] + r.order[i + 1..]) &&
            |o.sent| == 2 + (if origin != cfg.notifyChannel then 1 else 0) &&
            o.sent[0] == Message(Room(origin), Forgotten) &&
            o.sent[1] == Message(Room(origin), Listing(o.registry.value.order)) &&
            (Message(Room(cfg.notifyChannel), Removed(requester, user)) in o.sent <==> origin != cfg.notifyChannel)
  {
    RemoveOrder(r, user);
  }

  /** Forgetting the same user twice leaves the registry as forgetting once. */
  lemma ForgetIdempotent(cfg: Config, r: Registry, origin: string, requester: string, user: string)
    requires Valid(r)
    ensures var once := Forget(cfg, Some(r), origin, requester, user).registry;
            Forget(cfg, once, origin, requester, user).registry == once
  {
    RemoveIdempotent(r, user);
  }

  /**
   * The listing replies to the requester with the header and one line per
   * followed user: read back, its lines are exactly the registry's keys in
   * their order.
   */
  lemma ShowUsersListsKeys(r: Registry, origin: string)
    requires forall i :: 0 <= i < |r.order| ==> SingleLine(r.order[i])
    ensures var m := ShowUsers(Some(r), origin);
            |m| == 1 && m[0].to == Room(origin) &&
            Render(m[0].text)[..|ListHeader|] == ListHeader &&
            Lines(Render(m[0].text)[|ListHeader|..]) == r.order
  {
    var text := Render(Listing(r.order));
    assert text[|ListHeader|..] == ListBody(r.order);
    LinesOfListBody(r.order);
  }
}
