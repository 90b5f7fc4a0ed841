/**
 * Records identified by their `name` member (container definitions and
 * environment entries alike), and the set-or-append edit of a container's
 * `environment` list.
 */
module Environment {
  import opened JsonValue

  /** `v` is an object whose `name` member is exactly the string `name`. */
  predicate Named(v: Json, name: string) {
    v.JObject? && Lookup(v.members, "name") == Some(JString(name))
  }

  /** Position of the first record named `name`, scanning in order. */
  function FindNamed(items: seq<Json>, name: string): (r: Option<nat>)
    ensures r.Some? ==> r.value < |items| && Named(items[r.value], name)
    ensures r.Some? ==> forall j :: 0 <= j < r.value ==> !Named(items[j], name)
    ensures r.None? ==> forall j :: 0 <= j < |items| ==> !Named(items[j], name)
  {
    if |items| == 0 then None
    else if Named(items[0], name) then Some(0)
    else match FindNamed(items[1..], name)
      case None => None
      case Some(i) => Some(i + 1)
  }

  /**
   * Two lists that agree, position by position, on which records are named
   * `name`, and where the longer one adds no such record, find the same one.
   */
  lemma FindNamedAgrees(a: seq<Json>, b: seq<Json>, name: string)
    requires |a| <= |b|
    requires forall j :: 0 <= j < |a| ==> (Named(a[j], name) <==> Named(b[j], name))
    requires forall j :: |a| <= j < |b| ==> !Named(b[j], name)
    ensures FindNamed(a, name) == FindNamed(b, name)
  {
    var fa := FindNamed(a, name);
    var fb := FindNamed(b, name);
    if fa.Some? {
      var i := fa.value;
      assert Named(b[i], name);
      assert forall j :: 0 <= j < i ==> !Named(b[j], name);
      assert fb.Some? && fb.value <= i;
      assert !(fb.value < i);
    } else {
      assert forall j :: 0 <= j < |b| ==> !Named(b[j], name);
    }
  }

  /** The first record named `name` is the one at `j` when no earlier record has that name. */
  lemma FindNamedAt(items: seq<Json>, name: string, j: nat)
    requires j < |items| && Named(items[j], name)
    requires forall i :: 0 <= i < j ==> !Named(items[i], name)
    ensures FindNamed(items, name) == Some(j)
  {
  }

  /** The environment entry `{name, value}`. */
  function NewEntry(name: string, value: string): (e: Json)
    ensures Named(e, name)
    ensures Lookup(e.members, "value") == Some(JString(value))
  {
    var m := [("name", JString(name)), ("value", JString(value))];
    assert m[0].0 != "value" && m[1].0 == "value";
    JObject(m)
  }

  /** What `value` the first entry named `name` holds; None when there is no such entry or it has no `value`. */
  function ValueOf(env: seq<Json>, name: string): Option<Json> {
    match FindNamed(env, name)
    case None => None
    case Some(i) => Lookup(env[i].members, "value")
  }

  /**
   * Sets variable `name` to `value` in an environment list: the first entry
   * named `name` gets its `value` replaced where it stands, keeping its other
   * members; when there is none, `{name, value}` is appended. Every other
   * entry is left as it was, in its place.
   */
  function SetEnv(env: seq<Json>, name: string, value: string): (r: seq<Json>)
    ensures ValueOf(r, name) == Some(JString(value))
    ensures forall n :: n != name ==> ValueOf(r, n) == ValueOf(env, n)
    ensures |r| == if FindNamed(env, name).Some? then |env| else |env| + 1
    ensures forall j :: 0 <= j < |env| && r[j] != env[j] ==> FindNamed(env, name) == Some(j)
    ensures FindNamed(env, name).None? ==> r[|env|] == NewEntry(name, value)
    ensures FindNamed(env, name).Some? ==>
      var i := FindNamed(env, name).value;
      && r[i].JObject?
      && (forall k :: k != "value" ==> Lookup(r[i].members, k) == Lookup(env[i].members, k))
      && |r[i].members| == |env[i].members| + (if Lookup(env[i].members, "value").None? then 1 else 0)
      && (forall p :: 0 <= p < |env[i].members| ==> r[i].members[p].0 == env[i].members[p].0)
      && (forall p :: 0 <= p < |env[i].members| && env[i].members[p].0 != "value" ==>
            r[i].members[p] == env[i].members[p])
      && (Lookup(env[i].members, "value").None? ==>
            r[i].members[|env[i].members|] == ("value", JString(value)))
  {
    match FindNamed(env, name)
    case Some(i) =>
      var r := env[i := JObject(SetField(env[i].members, "value", JString(value)))];
      SetNamesKept(env, r, i, name, value);
      r
    case None =>
      var r := env + [NewEntry(name, value)];
      assert forall j :: 0 <= j < |env| ==> r[j] == env[j];
      assert Named(r[|env|], name);
      assert FindNamed(r, name) == Some(|env|);
      forall n | n != name
        ensures ValueOf(r, n) == ValueOf(env, n)
      {
        assert !Named(r[|env|], n);
        FindNamedAgrees(env, r, n);
      }
      r
  }

  /**
   * Replacing the `value` of entry `i` (the first named `name`) keeps every
   * entry's name, so each variable is still found at the same place.
   */
  lemma SetNamesKept(env: seq<Json>, r: seq<Json>, i: nat, name: string, value: string)
    requires FindNamed(env, name) == Some(i)
    requires r == env[i := JObject(SetField(env[i].members, "value", JString(value)))]
    ensures FindNamed(r, name) == Some(i)
    ensures ValueOf(r, name) == Some(JString(value))
    ensures forall n :: n != name ==> ValueOf(r, n) == ValueOf(env, n)
  {
    assert Lookup(r[i].members, "name") == Lookup(env[i].members, "name");
    forall n
      ensures FindNamed(r, n) == FindNamed(env, n)
    {
      FindNamedAgrees(env, r, n);
    }
  }

  /** Setting a variable to the value it already has leaves the list as it was. */
  lemma SetEnvUnchanged(env: seq<Json>, name: string, value: string)
    requires ValueOf(env, name) == Some(JString(value))
    ensures SetEnv(env, name, value) == env
  {
    var i := FindNamed(env, name).value;
    SetFieldUnchanged(env[i].members, "value", JString(value));
    assert env[i := JObject(env[i].members)] == env;
  }

  /** Setting a variable twice to the same value is the same as setting it once. */
  lemma SetEnvIdempotent(env: seq<Json>, name: string, value: string)
    ensures SetEnv(SetEnv(env, name, value), name, value) == SetEnv(env, name, value)
  {
    SetEnvUnchanged(SetEnv(env, name, value), name, value);
  }
}
