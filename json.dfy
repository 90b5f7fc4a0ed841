/**
 * Parsed JSON values, in the shape a task definition has once it has been
 * loaded: an object's member list stands for its own properties in their
 * property order.
 *
 * Property access on an object (`o.key` in the source) reads the FIRST member
 * with that key, and property assignment (`o.key = v`) overwrites that member
 * where it stands or, when the key is absent, adds the member at the end.
 */
module JsonValue {

  datatype Option<+T> = None | Some(value: T)

  /** A parsed JSON value. Numbers are carried, never inspected. */
  datatype Json =
    | JNull
    | JBool(b: bool)
    | JNumber(n: real)
    | JString(s: string)
    | JArray(items: seq<Json>)
    | JObject(members: seq<(string, Json)>)

  /** Position of the first member called `key`, or None when there is none. */
  function KeyIndex(members: seq<(string, Json)>, key: string): (r: Option<nat>)
    ensures r.Some? ==> r.value < |members| && members[r.value].0 == key
    ensures r.Some? ==> forall j :: 0 <= j < r.value ==> members[j].0 != key
    ensures r.None? ==> forall j :: 0 <= j < |members| ==> members[j].0 != key
  {
    if |members| == 0 then None
    else if members[0].0 == key then Some(0)
    else match KeyIndex(members[1..], key)
      case None => None
      case Some(i) => Some(i + 1)
  }

  /** What property access `o[key]` yields: None stands for `undefined`. */
  function Lookup(members: seq<(string, Json)>, key: string): Option<Json> {
    match KeyIndex(members, key)
    case None => None
    case Some(i) => Some(members[i].1)
  }

  /**
   * Property assignment `o[key] = v`: afterwards `key` reads as `v`, every
   * other key reads as before, every member keeps its key and position, and
   * only the first member called `key` changes; a missing key is added last.
   */
  function SetField(members: seq<(string, Json)>, key: string, v: Json): (r: seq<(string, Json)>)
    ensures Lookup(r, key) == Some(v)
    ensures forall k :: k != key ==> Lookup(r, k) == Lookup(members, k)
    ensures |r| == if Lookup(members, key).Some? then |members| else |members| + 1
    ensures forall j :: 0 <= j < |members| ==> r[j].0 == members[j].0
    ensures forall j :: 0 <= j < |members| && r[j] != members[j] ==> KeyIndex(members, key) == Some(j)
    ensures Lookup(members, key).None? ==> r[|members|] == (key, v)
  {
    match KeyIndex(members, key)
    case Some(i) =>
      var r := members[i := (key, v)];
      assert r[i].0 == key && forall j :: 0 <= j < i ==> r[j].0 != key;
      assert KeyIndex(r, key) == Some(i);
      assert forall k :: k != key ==> Lookup(r, k) == Lookup(members, k) by {
        forall k | k != key {
          SameKeysSameLookup(members, r, k);
        }
      }
      r
    case None =>
      var r := members + [(key, v)];
      assert forall j :: 0 <= j < |members| ==> r[j] == members[j];
      assert r[|members|] == (key, v);
      assert forall k :: k != key ==> Lookup(r, k) == Lookup(members, k) by {
        forall k | k != key {
          PrefixLookup(members, r, k);
        }
      }
      r
  }

  /**
   * Two member lists with the same keys position by position, agreeing on
   * every member called `k`, read the same value for `k`.
   */
  lemma SameKeysSameLookup(a: seq<(string, Json)>, b: seq<(string, Json)>, k: string)
    requires |a| == |b|
    requires forall j :: 0 <= j < |a| ==> a[j].0 == b[j].0
    requires forall j :: 0 <= j < |a| && a[j].0 == k ==> a[j] == b[j]
    ensures KeyIndex(a, k) == KeyIndex(b, k)
    ensures Lookup(a, k) == Lookup(b, k)
  {
    match KeyIndex(a, k)
    case None =>
    case Some(i) =>
      assert b[i].0 == k;
  }

  /** Adding members with other keys at the end does not change what `k` reads. */
  lemma PrefixLookup(a: seq<(string, Json)>, b: seq<(string, Json)>, k: string)
    requires |a| <= |b| && b[..|a|] == a
    requires forall j :: |a| <= j < |b| ==> b[j].0 != k
    ensures KeyIndex(a, k) == KeyIndex(b, k)
    ensures Lookup(a, k) == Lookup(b, k)
  {
    match KeyIndex(a, k)
    case None =>
      assert forall j :: 0 <= j < |a| ==> b[j] == a[j];
    case Some(i) =>
      assert b[i] == a[i];
      assert forall j :: 0 <= j < i ==> b[j] == a[j];
  }

  /** The first member called `key` is the one at `j` when no earlier member has that key. */
  lemma KeyIndexAt(members: seq<(string, Json)>, key: string, j: nat)
    requires j < |members| && members[j].0 == key
    requires forall i :: 0 <= i < j ==> members[i].0 != key
    ensures KeyIndex(members, key) == Some(j)
    ensures Lookup(members, key) == Some(members[j].1)
  {
  }

  /** Assigning a key the value it already reads leaves the object as it was. */
  lemma SetFieldUnchanged(members: seq<(string, Json)>, key: string, v: Json)
    requires Lookup(members, key) == Some(v)
    ensures SetField(members, key, v) == members
  {
    var i := KeyIndex(members, key).value;
    assert members[i] == (key, v);
  }
}
