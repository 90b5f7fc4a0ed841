/**
 * The task definitions the action is exercised with, and what rendering
 * each of them yields for container `web`, variable `ENV_VAR` and value
 * `ENV_VALUE`: the rendered document, or the failure message reported.
 */
module Scenarios {
  import opened JsonValue
  import opened Environment
  import opened Renderer

  const Container: string := "web"
  const Variable: string := "ENV_VAR"
  const Value: string := "ENV_VALUE"

  function WebRecord(environment: seq<Json>): Json {
    JObject([("name", JString("web")), ("image", JString("some-other-image")), ("environment", JArray(environment))])
  }

  const Sidecar: Json := JObject([("name", JString("sidecar")), ("image", JString("hello"))])

  function TaskDefinition(definitions: seq<Json>): Json {
    JObject([("family", JString("task-def-family")), ("containerDefinitions", JArray(definitions))])
  }

  /** `ENV_VAR` is set but empty, beside `OTHER_ENV_VAR`. */
  const EmptyThenOther: seq<Json> := [NewEntry("ENV_VAR", ""), NewEntry("OTHER_ENV_VAR", "OTHER_VALUE")]
  const SetThenOther: seq<Json> := [NewEntry("ENV_VAR", "ENV_VALUE"), NewEntry("OTHER_ENV_VAR", "OTHER_VALUE")]

  // Steps through the fixtures, one member lookup or assignment at a time.
  // The step lemmas take the fixture pieces as parameters, so that the
  // verifier reasons about them abstractly rather than unfolding literals.

  lemma FixtureDefinitions(definitions: seq<Json>)
    ensures HasDefinitions(TaskDefinition(definitions)) && Definitions(TaskDefinition(definitions)) == definitions
    ensures forall edited :: SetField(TaskDefinition(definitions).members, "containerDefinitions", JArray(edited))
                             == TaskDefinition(edited).members
  {
    KeyIndexAt(TaskDefinition(definitions).members, "containerDefinitions", 1);
  }

  lemma FixtureWeb(environment: seq<Json>)
    ensures Named(WebRecord(environment), Container)
    ensures EnvironmentUsable(WebRecord(environment)) && EnvironmentOf(WebRecord(environment)) == environment
    ensures forall edited :: SetField(WebRecord(environment).members, "environment", JArray(edited))
                             == WebRecord(edited).members
  {
    KeyIndexAt(WebRecord(environment).members, "name", 0);
    KeyIndexAt(WebRecord(environment).members, "environment", 2);
  }

  lemma FixtureSetVariable(env: seq<Json>)
    requires env == EmptyThenOther
    ensures SetEnv(env, Variable, Value) == SetThenOther
  {
    var entry := env[0];
    FindNamedAt(env, Variable, 0);
    KeyIndexAt(entry.members, "value", 1);
    assert SetField(entry.members, "value", JString(Value)) == NewEntry("ENV_VAR", "ENV_VALUE").members;
  }

  /** With `web` first, rendering gives `web` the edited environment and leaves the records after it alone. */
  lemma FixtureWebFirst(definitions: seq<Json>, environment: seq<Json>, edited: seq<Json>)
    requires |definitions| > 0 && definitions[0] == WebRecord(environment)
    requires SetEnv(environment, Variable, Value) == edited
    ensures Render(TaskDefinition(definitions), Container, Variable, Value)
         == Ok(TaskDefinition(definitions[0 := WebRecord(edited)]))
  {
    FixtureDefinitions(definitions);
    FixtureWeb(environment);
    FindNamedAt(definitions, Container, 0);
  }

  lemma FixtureWebThen(environment: seq<Json>, edited: seq<Json>, other: Json)
    requires SetEnv(environment, Variable, Value) == edited
    ensures Render(TaskDefinition([WebRecord(environment), other]), Container, Variable, Value)
         == Ok(TaskDefinition([WebRecord(edited), other]))
  {
    FixtureWebFirst([WebRecord(environment), other], environment, edited);
    assert [WebRecord(environment), other][0 := WebRecord(edited)] == [WebRecord(edited), other];
  }

  lemma FixtureWebOnly(environment: seq<Json>, edited: seq<Json>)
    requires SetEnv(environment, Variable, Value) == edited
    ensures Render(TaskDefinition([WebRecord(environment)]), Container, Variable, Value)
         == Ok(TaskDefinition([WebRecord(edited)]))
  {
    FixtureWebFirst([WebRecord(environment)], environment, edited);
    assert [WebRecord(environment)][0 := WebRecord(edited)] == [WebRecord(edited)];
  }

  /** An existing variable gets its value in place; the sidecar and `family` stay as they were. */
  lemma RendersExistingVariable()
    ensures Render(TaskDefinition([WebRecord(EmptyThenOther), Sidecar]), Container, Variable, Value)
         == Ok(TaskDefinition([WebRecord(SetThenOther), Sidecar]))
  {
    FixtureSetVariable(EmptyThenOther);
    FixtureWebThen(EmptyThenOther, SetThenOther, Sidecar);
  }

  /** The same edit on a task definition with a single container. */
  lemma RendersSingleContainer()
    ensures Render(TaskDefinition([WebRecord(EmptyThenOther)]), Container, Variable, Value)
         == Ok(TaskDefinition([WebRecord(SetThenOther)]))
  {
    FixtureSetVariable(EmptyThenOther);
    FixtureWebOnly(EmptyThenOther, SetThenOther);
  }

  const BareWeb: Json := JObject([("name", JString("web")), ("image", JString("some-other-image"))])

  lemma FixtureBareRecord(bare: Json, added: seq<Json>)
    requires bare == BareWeb
    ensures Named(bare, Container) && EnvironmentUsable(bare) && EnvironmentOf(bare) == []
    ensures JObject(SetField(bare.members, "environment", JArray(added))) == WebRecord(added)
  {
    KeyIndexAt(bare.members, "name", 0);
    assert Lookup(bare.members, "environment").None? by {
      assert forall j :: 0 <= j < |bare.members| ==> bare.members[j].0 != "environment";
    }
  }

  lemma FixtureOnlyRecord(record: Json, edited: seq<Json>)
    requires Named(record, Container) && EnvironmentUsable(record)
    requires SetEnv(EnvironmentOf(record), Variable, Value) == edited
    ensures Render(TaskDefinition([record]), Container, Variable, Value)
         == Ok(TaskDefinition([JObject(SetField(record.members, "environment", JArray(edited)))]))
  {
    FixtureDefinitions([record]);
    FindNamedAt([record], Container, 0);
    assert [record][0 := JObject(SetField(record.members, "environment", JArray(edited)))]
        == [JObject(SetField(record.members, "environment", JArray(edited)))];
  }

  lemma FixtureBareWeb(bare: Json)
    requires bare == BareWeb
    ensures Render(TaskDefinition([bare]), Container, Variable, Value)
         == Ok(TaskDefinition([WebRecord([NewEntry("ENV_VAR", "ENV_VALUE")])]))
  {
    var added := [NewEntry("ENV_VAR", "ENV_VALUE")];
    FixtureBareRecord(bare, added);
    assert SetEnv([], Variable, Value) == added;
    FixtureOnlyRecord(bare, added);
  }

  /** A record without `environment` gains one holding exactly `{ENV_VAR, ENV_VALUE}`, after its image. */
  lemma RendersAddedEnvironment()
    ensures Render(TaskDefinition([BareWeb]), Container, Variable, Value)
         == Ok(TaskDefinition([WebRecord([NewEntry("ENV_VAR", "ENV_VALUE")])]))
  {
    FixtureBareWeb(BareWeb);
  }

  // The reported texts, one lemma each, so that each scenario compares one literal.

  lemma DefinitionsMessage()
    ensures Message(InvalidFormat(DefinitionsNotArray))
         == "Invalid task definition format: containerDefinitions section is not present or is not an array"
  {
  }

  lemma EnvironmentMessage()
    ensures Message(InvalidFormat(EnvironmentNotArray))
         == "Invalid task definition format: environment section is not an array"
  {
  }

  lemma NotFoundMessage()
    ensures Message(ContainerNotFound)
         == "Invalid task definition: Could not find container definition with matching name"
  {
  }

  lemma FixtureNotObject(doc: Json)
    requires !doc.JObject?
    ensures Render(doc, Container, Variable, Value) == Err(InvalidFormat(DefinitionsNotArray))
  {
  }

  /** A document that is the string "hello" has no containerDefinitions array. */
  lemma RejectsNonObjectDocument()
    ensures var r := Render(JString("hello"), Container, Variable, Value);
      r.Err? && Message(r.error)
        == "Invalid task definition format: containerDefinitions section is not present or is not an array"
  {
    FixtureNotObject(JString("hello"));
    DefinitionsMessage();
  }

  const ObjectDefinitions: Json := JObject([("family", JString("task-def-family")), ("containerDefinitions", JObject([]))])

  lemma FixtureObjectDefinitions(doc: Json)
    requires doc == ObjectDefinitions
    ensures Render(doc, Container, Variable, Value) == Err(InvalidFormat(DefinitionsNotArray))
  {
    KeyIndexAt(doc.members, "containerDefinitions", 1);
  }

  /** containerDefinitions given as the empty object is refused with the same message. */
  lemma RejectsObjectDefinitions()
    ensures var r := Render(ObjectDefinitions, Container, Variable, Value);
      r.Err? && Message(r.error)
        == "Invalid task definition format: containerDefinitions section is not present or is not an array"
  {
    FixtureObjectDefinitions(ObjectDefinitions);
    DefinitionsMessage();
  }

  const ObjectEnvironmentWeb: Json :=
    JObject([("name", JString("web")), ("image", JString("some-other-image")), ("environment", JObject([]))])

  lemma FixtureObjectEnvironment(web: Json)
    requires web == ObjectEnvironmentWeb
    ensures Render(TaskDefinition([web]), Container, Variable, Value) == Err(InvalidFormat(EnvironmentNotArray))
  {
    FixtureDefinitions([web]);
    KeyIndexAt(web.members, "name", 0);
    KeyIndexAt(web.members, "environment", 2);
    FindNamedAt([web], Container, 0);
  }

  /** The `web` record's environment given as the empty object is refused. */
  lemma RejectsObjectEnvironment()
    ensures var r := Render(TaskDefinition([ObjectEnvironmentWeb]), Container, Variable, Value);
      r.Err? && Message(r.error) == "Invalid task definition format: environment section is not an array"
  {
    FixtureObjectEnvironment(ObjectEnvironmentWeb);
    EnvironmentMessage();
  }

  const Main: Json :=
    JObject([("name", JString("main")), ("image", JString("some-other-image")), ("environment", JArray([NewEntry("ENV_VAR", "")]))])

  lemma FixtureMain(main: Json)
    requires main.JObject? && |main.members| > 0 && main.members[0] == ("name", JString("main"))
    ensures Render(TaskDefinition([main]), Container, Variable, Value) == Err(ContainerNotFound)
  {
    FixtureDefinitions([main]);
    KeyIndexAt(main.members, "name", 0);
    assert !Named(main, Container);
  }

  /** Only a `main` container exists, so `web` is not found. */
  lemma RejectsMissingContainer()
    ensures var r := Render(TaskDefinition([Main]), Container, Variable, Value);
      r.Err? && Message(r.error) == "Invalid task definition: Could not find container definition with matching name"
  {
    FixtureMain(Main);
    NotFoundMessage();
  }
}
