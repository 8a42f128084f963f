/**
 * Chat rooms, the configuration naming the two rooms the notifier posts to,
 * and the text of every message it sends.
 */
module Messages {
  import opened Tracks
  import opened Decimal

  /**
   * Where a message goes: a room by id, or `undefined` (the error room when
   * LASTFM_ERROR_CHANNEL is not set; `robot.messageRoom` is still called).
   */
  datatype Channel = Room(id: string) | Unset

  /** What a message says, before it is rendered as text by `Render`. */
  datatype Text =
    | NotFound(user: string)
    | Following(user: string)
    | Added(requester: string, user: string)
    | Forgotten
    | Removed(requester: string, user: string)
    | Listing(keys: seq<string>)
    | RateLimited(user: string)
    | Failing(user: string, status: nat)
    | NowPlaying(user: string, artist: string, title: string)

  /** A message as handed to `message.send` (to the command's own room) or `robot.messageRoom`. */
  datatype Message = Message(to: Channel, text: Text)

  /** LASTFM_NOTIFY_CHANNEL and LASTFM_ERROR_CHANNEL. */
  datatype Config = Config(notifyChannel: string, errorChannel: Channel)

  /** The now-playing message for a track: its artist and title, each with its placeholder when missing. */
  function NowPlayingOf(user: string, t: Track): (r: Text)
    ensures r.NowPlaying? && r.user == user
    ensures t.artist.Some? ==> r.artist == t.artist.value
    ensures t.artist.None? ==> r.artist == UnknownArtist
    ensures t.name.Some? ==> r.title == t.name.value
    ensures t.name.None? ==> r.title == UntitledTrack
  {
    NowPlaying(user, TrackArtist(t), TrackName(t))
  }

  const ListHeader: string := "I'm currently watching the following users:\n"

  /** The fixed pieces of the messages' template literals. */
  const NotFoundTail: string := " could not be found on Last.fm! Verify the username exists and has successfully scrobbled at least once. Then try again."
  const FollowingTail: string := " is now being followed. I'll report back any new Scrobbles ASAP!"
  const AddedMid: string := " has added "
  const AddedTail: string := " to the Last.fm Notifier."
  const ForgottenText: string := "Who? Never heard of them."
  const RemovedMid: string := " has removed "
  const RemovedTail: string := " from the Last.fm Notifier."
  const NotifierOpen: string := "Last.fm notifier <"
  const RateLimitedTail: string := "> has overstepped the API rate limit. Consider reducing the timing on stream checks."
  const FailingMid: string := "> failing with statusCode ["
  const FailingTail: string := "]. Haalp!"
  const Headphones: string := "\U{1F3A7} "

  /** The characters posted for each kind of message; none is empty. */
  function Render(t: Text): (s: string)
    ensures |s| > 0
  {
    match t
    case NotFound(user) => user + NotFoundTail
    case Following(user) => user + FollowingTail
    case Added(requester, user) => requester + AddedMid + user + AddedTail
    case Forgotten => ForgottenText
    case Removed(requester, user) => requester + RemovedMid + user + RemovedTail
    case Listing(keys) => ListHeader + ListBody(keys)
    case RateLimited(user) => NotifierOpen + user + RateLimitedTail
    case Failing(user, status) => NotifierOpen + user + FailingMid + NatToString(status) + FailingTail
    case NowPlaying(user, artist, title) => Headphones + user + ": " + artist + " - " + title
  }

  /** Every key followed by a newline, in the given order. */
  function ListBody(keys: seq<string>): (body: string)
    ensures |keys| > 0 ==> |body| > 0 && body[|body| - 1] == '\n'
  {
    if keys == [] then "" else keys[0] + "\n" + ListBody(keys[1..])
  }

  /** A string with no line break in it, as every username the command patterns accept. */
  predicate SingleLine(s: string)
  {
    forall i :: 0 <= i < |s| ==> s[i] != '\n'
  }

  /** The index of the first line break of `s`, or `|s|` when there is none. */
  function LineEnd(s: string): (i: nat)
    ensures i <= |s|
    ensures forall j :: 0 <= j < i ==> s[j] != '\n'
    ensures i < |s| ==> s[i] == '\n'
  {
    if s == [] || s[0] == '\n' then 0 else 1 + LineEnd(s[1..])
  }

  /** Reads a listing body back: the lines of `s`, each ended by a line break (a last unterminated line is kept). */
  function Lines(s: string): seq<string>
    decreases |s|
  {
    if s == [] then []
    else
      var i := LineEnd(s);
      if i == |s| then [s] else [s[..i]] + Lines(s[i + 1..])
  }

  /** The listing names exactly the registry's keys, in order, when no key holds a line break. */
  lemma {:induction false} LinesOfListBody(keys: seq<string>)
    requires forall k :: 0 <= k < |keys| ==> SingleLine(keys[k])
    ensures Lines(ListBody(keys)) == keys
  {
    if keys != [] {
      var s := ListBody(keys);
      var k := keys[0];
      assert s == k + "\n" + ListBody(keys[1..]);
      assert s[|k|] == '\n';
      assert LineEnd(s) == |k| by {
        assert forall j :: 0 <= j < |k| ==> s[j] == k[j];
      }
      assert s[..|k|] == k;
      assert s[|k| + 1..] == ListBody(keys[1..]);
      LinesOfListBody(keys[1..]);
    }
  }

  /** Two failure reports for the same user read the same only if their status codes are equal. */
  lemma FailureTextNamesStatus(user: string, s1: nat, s2: nat)
    requires Render(Failing(user, s1)) == Render(Failing(user, s2))
    ensures s1 == s2
  {
    var p := NotifierOpen + user + FailingMid;
    var q := FailingTail;
    var t := Render(Failing(user, s1));
    assert t == p + NatToString(s1) + q;
    assert t == p + NatToString(s2) + q;
    assert NatToString(s1) == t[|p|..|t| - |q|];
    assert NatToString(s2) == t[|p|..|t| - |q|];
    NatToStringInjective(s1, s2);
  }

  /** The two replies to a follow open with the user's name. */
  lemma RenderRepliesOpenWithUser(user: string)
    ensures var s := Render(NotFound(user)); |user| <= |s| && s[..|user|] == user
    ensures var s := Render(Following(user)); |user| <= |s| && s[..|user|] == user
  {
    assert (user + NotFoundTail)[..|user|] == user;
    assert (user + FollowingTail)[..|user|] == user;
  }

  /** The add and remove announcements open with the requester's name. */
  lemma RenderAnnouncementsOpenWithRequester(requester: string, user: string)
    ensures var s := Render(Added(requester, user)); |requester| <= |s| && s[..|requester|] == requester
    ensures var s := Render(Removed(requester, user)); |requester| <= |s| && s[..|requester|] == requester
  {
    var added := AddedMid + user + AddedTail;
    assert Render(Added(requester, user)) == requester + added;
    assert (requester + added)[..|requester|] == requester;
    var removed := RemovedMid + user + RemovedTail;
    assert Render(Removed(requester, user)) == requester + removed;
    assert (requester + removed)[..|requester|] == requester;
  }

  /** A listing opens with its header; the body follows it. */
  lemma RenderListingOpensWithHeader(keys: seq<string>)
    ensures var s := Render(Listing(keys)); |ListHeader| <= |s| && s[..|ListHeader|] == ListHeader
    ensures var s := Render(Listing(keys)); s[|ListHeader|..] == ListBody(keys)
  {
    assert (ListHeader + ListBody(keys))[..|ListHeader|] == ListHeader;
    assert (ListHeader + ListBody(keys))[|ListHeader|..] == ListBody(keys);
  }

  /** A now-playing message ends with the track's title. */
  lemma RenderEndsWithTitle(user: string, artist: string, title: string)
    ensures var s := Render(NowPlaying(user, artist, title));
            |title| <= |s| && s[|s| - |title|..] == title
  {
    var front := Headphones + user + ": " + artist + " - ";
    assert Render(NowPlaying(user, artist, title)) == front + title;
    assert (front + title)[|front|..] == title;
  }
}
