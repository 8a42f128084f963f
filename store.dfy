/**
 * The registry `robot.brain.data.last_fm_notifier_users`: a JavaScript object
 * from username to stored value, whose keys enumerate in insertion order.
 */
module Store {
  import opened Basics

  /** A stored value: the `{}` written by follow, or a song identifier written by a poll. */
  datatype Entry = Placeholder | Song(id: string)

  /** JavaScript truthiness of a stored value: an object is truthy, a string unless it is empty. */
  predicate Truthy(e: Entry)
  {
    e.Placeholder? || e.id != ""
  }

  /** The registry's own keys in enumeration order, and the value under each. */
  datatype Registry = Registry(order: seq<string>, entries: map<string, Entry>)

  predicate Distinct(s: seq<string>)
  {
    forall i, j :: 0 <= i < j < |s| ==> s[i] != s[j]
  }

  /** The key order lists every key of the object exactly once. */
  ghost predicate Valid(r: Registry)
  {
    Distinct(r.order) && forall k :: k in r.entries <==> k in r.order
  }

  /** Every stored value is truthy: what follow and the poll ever write. */
  predicate AllTruthy(r: Registry)
  {
    forall k :: k in r.entries ==> Truthy(r.entries[k])
  }

  /** `{}` */
  const Empty: Registry := Registry([], map[])

  /** `registry[k]`, None when the key is absent. */
  function Lookup(r: Registry, k: string): Option<Entry>
  {
    if k in r.entries then Some(r.entries[k]) else None
  }

  /** In a valid registry, `registry[k]` is defined exactly when `Object.keys` lists `k`. */
  lemma LookupListed(r: Registry, k: string)
    requires Valid(r)
    ensures Lookup(r, k).Some? <==> k in r.order
    ensures Lookup(r, k).Some? ==> Lookup(r, k).value == r.entries[k]
  {
  }

  /**
   * `registry[k] = v`: the key now holds `v`, no other key changes, an
   * existing key keeps its place in the order and a new one goes last.
   */
  function Put(r: Registry, k: string, v: Entry): (r': Registry)
    requires Valid(r)
    ensures Valid(r')
    ensures Lookup(r', k) == Some(v)
    ensures forall j :: j != k ==> Lookup(r', j) == Lookup(r, j)
    ensures k in r.entries ==> r'.order == r.order
    ensures k !in r.entries ==> r'.order == r.order + [k]
  {
    Registry(if k in r.entries then r.order else r.order + [k], r.entries[k := v])
  }

  /** `s` with every occurrence of `k` taken out, the rest in their order. */
  function Without(s: seq<string>, k: string): (t: seq<string>)
    ensures forall x :: x in t <==> x in s && x != k
    ensures |t| <= |s|
  {
    if s == [] then []
    else if s[0] == k then Without(s[1..], k)
    else [s[0]] + Without(s[1..], k)
  }

  lemma {:induction false} WithoutDistinct(s: seq<string>, k: string)
    requires Distinct(s)
    ensures Distinct(Without(s, k))
  {
    if s != [] {
      assert Distinct(s[1..]) by {
        forall i, j | 0 <= i < j < |s| - 1 ensures s[1..][i] != s[1..][j] {
          assert s[1..][i] == s[i + 1] && s[1..][j] == s[j + 1];
        }
      }
      WithoutDistinct(s[1..], k);
      assert s[0] !in s[1..] by {
        forall i | 0 <= i < |s| - 1 ensures s[1..][i] != s[0] {
          assert s[1..][i] == s[i + 1];
        }
      }
    }
  }

  /** Taking out a key that occurs once, at index `i`, closes the gap and keeps every other key in place. */
  lemma {:induction false} WithoutAt(s: seq<string>, i: nat)
    requires Distinct(s) && i < |s|
    ensures Without(s, s[i]) == s[..i] + s[i + 1..]
  {
    if i == 0 {
      WithoutAbsent(s[1..], s[0]);
    } else {
      assert s[0] != s[i];
      assert Distinct(s[1..]) by {
        forall a, b | 0 <= a < b < |s| - 1 ensures s[1..][a] != s[1..][b] {
          assert s[1..][a] == s[a + 1] && s[1..][b] == s[b + 1];
        }
      }
      WithoutAt(s[1..], i - 1);
      assert s[1..][i - 1] == s[i];
      assert s[..i] == [s[0]] + s[1..][..i - 1];
      assert s[i + 1..] == s[1..][i..];
    }
  }

  /** Taking out a key that does not occur changes nothing. */
  lemma {:induction false} WithoutAbsent(s: seq<string>, k: string)
    requires k !in s
    ensures Without(s, k) == s
  {
    if s != [] {
      assert k !in s[1..];
      WithoutAbsent(s[1..], k);
    }
  }

  /** `delete registry[k]`: the key is gone, no other key changes, the others keep their order. */
  function Remove(r: Registry, k: string): (r': Registry)
    requires Valid(r)
    ensures Valid(r')
    ensures Lookup(r', k) == None
    ensures forall j :: j != k ==> Lookup(r', j) == Lookup(r, j)
  {
    WithoutDistinct(r.order, k);
    Registry(Without(r.order, k), r.entries - {k})
  }

  /** The key order after a delete: the deleted key's slot closes, or nothing moves when it was absent. */
  lemma RemoveOrder(r: Registry, k: string)
    requires Valid(r)
    ensures k !in r.entries ==> Remove(r, k).order == r.order
    ensures forall i :: 0 <= i < |r.order| && r.order[i] == k ==>
              Remove(r, k).order == r.order[..i] + r.order[i + 1..]
  {
    if k !in r.entries {
      WithoutAbsent(r.order, k);
    }
    forall i | 0 <= i < |r.order| && r.order[i] == k
      ensures Remove(r, k).order == r.order[..i] + r.order[i + 1..]
    {
      WithoutAt(r.order, i);
    }
  }

  /** Deleting twice is deleting once. */
  lemma RemoveIdempotent(r: Registry, k: string)
    requires Valid(r)
    ensures Remove(Remove(r, k), k) == Remove(r, k)
  {
    WithoutAbsent(Remove(r, k).order, k);
  }
}
