/**
 * The most recent track of a user, as the Last.fm `user.getrecenttracks` call
 * reports it, and the song identifier the change detector compares.
 */
module Tracks {
  import opened Basics

  /**
   * One element of `recenttracks.track`, already parsed: the strings found at
   * `artist["#text"]`, `album["#text"]` and `name`, each None when that path
   * is undefined in the JSON object.
   */
  datatype Track = Track(artist: Option<string>, album: Option<string>, name: Option<string>)

  const UnknownArtist: string := "<Unknown Artist>"
  const UnknownAlbum: string := "<Unknown Album>"
  const UntitledTrack: string := "<Untitled Track>"

  /** Lodash `_.get(object, path, fallback)`: the value at the path, or the fallback when it is undefined. */
  function GetOr(field: Option<string>, fallback: string): string
  {
    match field
    case Some(v) => v
    case None => fallback
  }

  function TrackArtist(t: Track): (v: string)
    ensures t.artist.Some? ==> v == t.artist.value
    ensures t.artist.None? ==> v == UnknownArtist
  {
    GetOr(t.artist, UnknownArtist)
  }

  function TrackAlbum(t: Track): (v: string)
    ensures t.album.Some? ==> v == t.album.value
    ensures t.album.None? ==> v == UnknownAlbum
  {
    GetOr(t.album, UnknownAlbum)
  }

  function TrackName(t: Track): (v: string)
    ensures t.name.Some? ==> v == t.name.value
    ensures t.name.None? ==> v == UntitledTrack
  {
    GetOr(t.name, UntitledTrack)
  }

  /** The three resolved fields the identifier is built from. */
  function Fields(t: Track): (string, string, string)
  {
    (TrackArtist(t), TrackAlbum(t), TrackName(t))
  }

  /**
   * `artist+album+name`. Its length accounts for the three fields and two
   * separators, and it is never empty, so as a stored JavaScript value it is
   * always truthy.
   */
  function SongIdentifier(t: Track): (id: string)
    ensures |id| == |TrackArtist(t)| + |TrackAlbum(t)| + |TrackName(t)| + 2
    ensures id != ""
    ensures id[..|TrackArtist(t)|] == TrackArtist(t)
    ensures id[|id| - |TrackName(t)|..] == TrackName(t)
  {
    TrackArtist(t) + "+" + TrackAlbum(t) + "+" + TrackName(t)
  }

  /** Tracks whose resolved fields agree get the same identifier, whatever their fields contain. */
  lemma SameFieldsSameIdentifier(t1: Track, t2: Track)
    requires Fields(t1) == Fields(t2)
    ensures SongIdentifier(t1) == SongIdentifier(t2)
  {
  }

  /** A string with no `+` in it: every field of an identifier that can be split back uniquely. */
  predicate PlusFree(s: string)
  {
    forall i :: 0 <= i < |s| ==> s[i] != '+'
  }

  /** The first `+` of `x + "+" + y` is the one after `x` when `x` has none. */
  lemma {:induction false} SplitAtFirstPlus(x: string, y: string, u: string, v: string)
    requires PlusFree(x) && PlusFree(u)
    requires x + "+" + y == u + "+" + v
    ensures x == u && y == v
  {
    var s := x + "+" + y;
    assert s[|x|] == '+' && s[|u|] == '+';
    assert x == s[..|x|];
    assert u == (u + "+" + v)[..|u|];
    assert y == s[|x| + 1..];
    assert v == (u + "+" + v)[|u| + 1..];
  }

  /** Three `+`-joined strings split back uniquely when the first two have no `+`. */
  lemma {:induction false} JoinInjective(a1: string, b1: string, c1: string, a2: string, b2: string, c2: string)
    requires PlusFree(a1) && PlusFree(b1) && PlusFree(a2) && PlusFree(b2)
    requires a1 + "+" + b1 + "+" + c1 == a2 + "+" + b2 + "+" + c2
    ensures a1 == a2 && b1 == b2 && c1 == c2
  {
    assert a1 + "+" + b1 + "+" + c1 == a1 + "+" + (b1 + "+" + c1);
    assert a2 + "+" + b2 + "+" + c2 == a2 + "+" + (b2 + "+" + c2);
    SplitAtFirstPlus(a1, b1 + "+" + c1, a2, b2 + "+" + c2);
    SplitAtFirstPlus(b1, c1, b2, c2);
  }

  /**
   * When no resolved field contains `+`, two tracks get the same identifier
   * exactly when their resolved fields agree.
   */
  lemma {:induction false} SongIdentifierInjective(t1: Track, t2: Track)
    requires PlusFree(TrackArtist(t1)) && PlusFree(TrackAlbum(t1))
    requires PlusFree(TrackArtist(t2)) && PlusFree(TrackAlbum(t2))
    ensures SongIdentifier(t1) == SongIdentifier(t2) <==> Fields(t1) == Fields(t2)
  {
    if SongIdentifier(t1) == SongIdentifier(t2) {
      JoinInjective(TrackArtist(t1), TrackAlbum(t1), TrackName(t1), TrackArtist(t2), TrackAlbum(t2), TrackName(t2));
    }
  }

  /**
   * Without that condition the identifier is ambiguous: an artist `A+B` on
   * album `C` and an artist `A` on album `B+C` give the same identifier, so a
   * switch between two such tracks is not seen as a change.
   */
  lemma SongIdentifierCollision()
    ensures var t1 := Track(Some("A+B"), Some("C"), Some("D"));
            var t2 := Track(Some("A"), Some("B+C"), Some("D"));
            Fields(t1) != Fields(t2) && SongIdentifier(t1) == SongIdentifier(t2)
  {
    var t1 := Track(Some("A+B"), Some("C"), Some("D"));
    var t2 := Track(Some("A"), Some("B+C"), Some("D"));
    assert SongIdentifier(t1) == "A+B+C+D";
    assert SongIdentifier(t2) == "A+B+C+D";
    assert TrackArtist(t1) != TrackArtist(t2) by { assert |TrackArtist(t1)| != |TrackArtist(t2)|; }
  }
}
