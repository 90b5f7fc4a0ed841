/**
 * The task-definition renderer: given a parsed task definition, a container
 * name and an environment variable's name and value, it returns the task
 * definition with that variable set in that container's `environment`, or
 * the failure the action reports.
 *
 * Steps, each of which can end the run with a failure: `containerDefinitions`
 * must be an array; the first record named after the container is the one
 * edited; that record's `environment`, when present, must be an array; the
 * variable is then set or appended. The edit rebuilds the environment list,
 * the record and the document, so a failure leaves no partial result.
 */
module Renderer {
  import opened JsonValue
  import opened Environment

  /** Which part of the task definition has the wrong shape. */
  datatype FormatProblem = DefinitionsNotArray | EnvironmentNotArray

  datatype RenderError =
    | InvalidFormat(problem: FormatProblem)
    | ContainerNotFound

  datatype Result<+T> = Ok(value: T) | Err(error: RenderError)

  /** The failure message the action reports for each error. */
  function Message(e: RenderError): string {
    match e
    case InvalidFormat(DefinitionsNotArray) =>
      "Invalid task definition format: containerDefinitions section is not present or is not an array"
    case InvalidFormat(EnvironmentNotArray) =>
      "Invalid task definition format: environment section is not an array"
    case ContainerNotFound =>
      "Invalid task definition: Could not find container definition with matching name"
  }

  /** The document is an object whose `containerDefinitions` is an array. */
  predicate HasDefinitions(doc: Json) {
    && doc.JObject?
    && Lookup(doc.members, "containerDefinitions").Some?
    && Lookup(doc.members, "containerDefinitions").value.JArray?
  }

  function Definitions(doc: Json): seq<Json>
    requires HasDefinitions(doc)
  {
    Lookup(doc.members, "containerDefinitions").value.items
  }

  /** A record's `environment` is either absent or an array. */
  predicate EnvironmentUsable(record: Json)
    requires record.JObject?
  {
    Lookup(record.members, "environment").None? || Lookup(record.members, "environment").value.JArray?
  }

  /** A record's environment list; an absent `environment` counts as empty. */
  function EnvironmentOf(record: Json): seq<Json>
    requires record.JObject? && EnvironmentUsable(record)
  {
    match Lookup(record.members, "environment")
    case None => []
    case Some(env) => env.items
  }

  /**
   * Renders the task definition: checks `containerDefinitions`, finds the
   * first record named `container`, checks its `environment`, and sets the
   * variable there.
   */
  function Render(doc: Json, container: string, name: string, value: string): (r: Result<Json>)
    ensures r.Ok? ==> HasDefinitions(r.value)
  {
    if !HasDefinitions(doc) then Err(InvalidFormat(DefinitionsNotArray))
    else
      var defs := Definitions(doc);
      match FindNamed(defs, container)
      case None => Err(ContainerNotFound)
      case Some(i) =>
        var record := defs[i];
        if !EnvironmentUsable(record) then Err(InvalidFormat(EnvironmentNotArray))
        else
          var env := SetEnv(EnvironmentOf(record), name, value);
          var edited := JObject(SetField(record.members, "environment", JArray(env)));
          Ok(JObject(SetField(doc.members, "containerDefinitions", JArray(defs[i := edited]))))
  }

  /**
   * Rendering fails with the containerDefinitions format error exactly when
   * the document is not an object holding an array there; with
   * ContainerNotFound exactly when no record carries the container's name;
   * and with the environment format error exactly when the first such record
   * has an `environment` that is present and not an array. It succeeds
   * otherwise.
   */
  lemma RenderFails(doc: Json, container: string, name: string, value: string)
    ensures var r := Render(doc, container, name, value);
      && (r == Err(InvalidFormat(DefinitionsNotArray)) <==> !HasDefinitions(doc))
      && (r == Err(ContainerNotFound) <==>
            HasDefinitions(doc) && forall j :: 0 <= j < |Definitions(doc)| ==> !Named(Definitions(doc)[j], container))
      && (r == Err(InvalidFormat(EnvironmentNotArray)) <==>
            && HasDefinitions(doc)
            && FindNamed(Definitions(doc), container).Some?
            && !EnvironmentUsable(Definitions(doc)[FindNamed(Definitions(doc), container).value]))
      && (r.Ok? <==>
            && HasDefinitions(doc)
            && FindNamed(Definitions(doc), container).Some?
            && EnvironmentUsable(Definitions(doc)[FindNamed(Definitions(doc), container).value]))
  {
  }

  /**
   * On success, every top-level member other than `containerDefinitions`
   * (such as `family`) is returned unchanged and in place, and
   * `containerDefinitions` keeps its place and its length.
   */
  lemma RenderKeepsDocument(doc: Json, container: string, name: string, value: string)
    ensures var r := Render(doc, container, name, value);
      r.Ok? ==>
        && r.value.JObject?
        && |r.value.members| == |doc.members|
        && (forall k :: k != "containerDefinitions" ==> Lookup(r.value.members, k) == Lookup(doc.members, k))
        && (forall j :: 0 <= j < |doc.members| && doc.members[j].0 != "containerDefinitions" ==>
              r.value.members[j] == doc.members[j])
        && |Definitions(r.value)| == |Definitions(doc)|
  {
    if Render(doc, container, name, value).Ok? {
      var defs := Definitions(doc);
      var i := FindNamed(defs, container).value;
      assert |defs[i := defs[i]]| == |defs|;
    }
  }

  /**
   * On success, every container record other than the first one named
   * `container` (a sidecar, say) is returned unchanged and in place.
   */
  lemma RenderKeepsOtherContainers(doc: Json, container: string, name: string, value: string)
    ensures var r := Render(doc, container, name, value);
      r.Ok? ==>
        forall j :: 0 <= j < |Definitions(doc)| && FindNamed(Definitions(doc), container) != Some(j) ==>
          j < |Definitions(r.value)| && Definitions(r.value)[j] == Definitions(doc)[j]
  {
    RenderKeepsDocument(doc, container, name, value);
  }

  /**
   * On success, the edited record is the first one named `container`; it
   * keeps its name, its place, its member count (plus one when it lacked
   * `environment`, which is then added after its last member), the key in
   * every slot, and every member other than `environment` (its image, say);
   * and its `environment` is the old list (empty when there was none) with
   * the variable set. So the variable now reads `value`, and every other
   * variable of that record reads as before.
   */
  lemma RenderEditsContainer(doc: Json, container: string, name: string, value: string)
    ensures var r := Render(doc, container, name, value);
      r.Ok? ==>
        var i := FindNamed(Definitions(doc), container).value;
        var before := Definitions(doc)[i];
        var after := Definitions(r.value);
        && |after| == |Definitions(doc)|
        && FindNamed(after, container) == Some(i)
        && after[i].JObject?
        && (forall k :: k != "environment" ==> Lookup(after[i].members, k) == Lookup(before.members, k))
        && (forall p :: 0 <= p < |before.members| && before.members[p].0 != "environment" ==>
              p < |after[i].members| && after[i].members[p] == before.members[p])
        && |after[i].members| == |before.members| + (if Lookup(before.members, "environment").None? then 1 else 0)
        && (forall p :: 0 <= p < |before.members| ==> after[i].members[p].0 == before.members[p].0)
        && (Lookup(before.members, "environment").None? ==>
              after[i].members[|before.members|].0 == "environment")
        && EnvironmentUsable(after[i])
        && EnvironmentOf(after[i]) == SetEnv(EnvironmentOf(before), name, value)
        && ValueOf(EnvironmentOf(after[i]), name) == Some(JString(value))
        && (forall n :: n != name ==> ValueOf(EnvironmentOf(after[i]), n) == ValueOf(EnvironmentOf(before), n))
  {
    if Render(doc, container, name, value).Ok? {
      var defs := Definitions(doc);
      var i := FindNamed(defs, container).value;
      var record := defs[i];
      var env := SetEnv(EnvironmentOf(record), name, value);
      var edited := JObject(SetField(record.members, "environment", JArray(env)));
      var out := Render(doc, container, name, value).value;
      assert out == JObject(SetField(doc.members, "containerDefinitions", JArray(defs[i := edited])));
      var after := Definitions(out);
      assert after == defs[i := edited];
      ReplaceEnvironment(record, env, container);
      FindNamedAgrees(defs, after, container);
    }
  }

  /** Replacing a record's `environment` keeps its name and every other member. */
  lemma ReplaceEnvironment(record: Json, env: seq<Json>, container: string)
    requires record.JObject?
    ensures var edited := JObject(SetField(record.members, "environment", JArray(env)));
      && (Named(edited, container) <==> Named(record, container))
      && (forall k :: k != "environment" ==> Lookup(edited.members, k) == Lookup(record.members, k))
      && EnvironmentUsable(edited)
      && EnvironmentOf(edited) == env
  {
    var edited := JObject(SetField(record.members, "environment", JArray(env)));
    assert Lookup(edited.members, "name") == Lookup(record.members, "name");
  }

  /**
   * A task definition whose container already has the variable set to the
   * value is rendered as it is.
   */
  lemma RenderUnchanged(doc: Json, container: string, name: string, value: string)
    ensures
      (&& HasDefinitions(doc)
       && FindNamed(Definitions(doc), container).Some?
       && var record := Definitions(doc)[FindNamed(Definitions(doc), container).value];
          EnvironmentUsable(record) && ValueOf(EnvironmentOf(record), name) == Some(JString(value)))
      ==> Render(doc, container, name, value) == Ok(doc)
  {
    if HasDefinitions(doc) && FindNamed(Definitions(doc), container).Some? {
      var defs := Definitions(doc);
      var i := FindNamed(defs, container).value;
      var record := defs[i];
      if EnvironmentUsable(record) && ValueOf(EnvironmentOf(record), name) == Some(JString(value)) {
        var env := EnvironmentOf(record);
        SetEnvUnchanged(env, name, value);
        assert Lookup(record.members, "environment") == Some(JArray(env));
        SetFieldUnchanged(record.members, "environment", JArray(env));
        assert defs[i := JObject(record.members)] == defs;
        SetFieldUnchanged(doc.members, "containerDefinitions", JArray(defs));
      }
    }
  }

  /** Rendering the rendered document again, with the same inputs, changes nothing. */
  lemma RenderIdempotent(doc: Json, container: string, name: string, value: string)
    ensures var r := Render(doc, container, name, value);
      r.Ok? ==> Render(r.value, container, name, value) == r
  {
    if Render(doc, container, name, value).Ok? {
      RenderEditsContainer(doc, container, name, value);
      RenderUnchanged(Render(doc, container, name, value).value, container, name, value);
    }
  }
}
