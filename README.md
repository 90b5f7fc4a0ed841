# Task-definition environment renderer, in Dafny

This project models the rendering step of a GitHub Action. The action sets
one environment variable in one container of an Amazon ECS task definition.
The renderer takes four inputs:

- the task definition, already parsed from JSON;
- the name of a container;
- the name of an environment variable;
- the variable's value.

It returns either the edited task definition or one of three failures:

1. `containerDefinitions` is missing or is not an array.
2. No container record has exactly that name (`ContainerNotFound`).
3. The first record with that name has an `environment` that is not an array.

On success, the variable's entry in that record's `environment` has its
`value` replaced where it stands. If there is no such entry, `{name, value}`
is appended, and `environment` is created when the record had none. Nothing
else changes: top-level members such as `family`, the other containers, the
record's other members, and the other variables stay where they were.

The action's implementation file is not part of this model. The behaviour
modelled here is the one the repository's test file pins down, fixture by
fixture. The model is pure: values in, value out. The test file's
expectations are restated as concrete lemmas.

- `json.dfy` (module `JsonValue`): parsed JSON values. Objects are ordered
  member lists. `Lookup` models property access and `SetField` models property
  assignment.
- `environment.dfy` (module `Environment`): records identified by their
  `name` member (`Named`, `FindNamed`), and `SetEnv`, the set-or-append edit
  of an environment list.
- `renderer.dfy` (module `Renderer`): the errors and their messages, `Render`,
  and the lemmas about what rendering keeps and changes.
- `scenarios.dfy` (module `Scenarios`): the test file's task definitions and
  the result or failure message for each.

The failure messages are the full texts the action reports, such as
"Invalid task definition: Could not find container definition with matching
name". They include the "Invalid task definition format: " or "Invalid task
definition: " prefix the tests expect.

## Model

| member | source | states |
|---|---|---|
| `JsonValue.SetField` | index.test.js:218-230 | assigning a member makes that key read the new value and every other key read as before; every member keeps its key and position; only the first member with that key changes; a missing key is added last (so `environment` lands after `image`) |
| `Environment.FindNamed` | index.test.js:332-364 | the container locator: the result is the first record whose `name` is exactly the target (no earlier record is), and there is no result exactly when no record has that name |
| `Environment.SetEnv` | index.test.js:80-89 | after the edit the variable reads the new value, and every other variable reads as before; with an existing entry the list keeps its length and only that entry changes: it keeps its position, every member keeps its key in its slot, members other than `value` are unchanged, and a missing `value` is added last; otherwise the list grows by one and `{name, value}` is last |
| `Environment.SetEnvUnchanged` | index.test.js:80-89 | setting a variable to the value it already has returns the list unchanged |
| `Environment.SetEnvIdempotent` | index.test.js:80-89 | setting a variable twice to the same value equals setting it once (a consequence of in-place replacement, not a test expectation) |
| `Renderer.Render` | index.test.js:73-76 | a successful render yields a task definition that is again an object holding a `containerDefinitions` array |
| `Renderer.RenderFails` | index.test.js:259-364 | rendering fails with the containerDefinitions format error exactly when the document is not an object with an array there; with ContainerNotFound exactly when no record has the container's name; with the environment format error exactly when the first such record's `environment` is present and not an array; and it succeeds exactly in the remaining case |
| `Renderer.RenderKeepsDocument` | index.test.js:75-76 | on success every top-level member other than `containerDefinitions` (`family`) reads and sits as before, and the document and the container list keep their lengths |
| `Renderer.RenderKeepsOtherContainers` | index.test.js:91-94 | on success every container record other than the edited one (`sidecar`) is returned unchanged in its position |
| `Renderer.RenderEditsContainer` | index.test.js:77-90 | on success the edited record is still the first one with the name, in the same position; it keeps its member count (plus one when `environment` was absent, added as its last member) and the key in every slot; its members other than `environment` (`image`) are unchanged in their slots; its environment is the old one (empty if absent) with the variable set, so the variable reads the new value and every other variable reads as before |
| `Renderer.RenderUnchanged` | index.test.js:80-89 | a task definition whose container already has the variable at that value is returned unchanged |
| `Renderer.RenderIdempotent` | index.test.js:73-99 | rendering the rendered task definition again with the same inputs returns it unchanged |
| `Scenarios.RendersExistingVariable` | index.test.js:32-99 | the two-container fixture renders to the expected document: `ENV_VAR` goes from "" to "ENV_VALUE" in first place, `OTHER_ENV_VAR` stays second, and `sidecar` and `family` are untouched |
| `Scenarios.RendersSingleContainer` | index.test.js:115-173 | the single-container fixture renders to the expected document |
| `Scenarios.RendersAddedEnvironment` | index.test.js:183-234 | a `web` record without `environment` gains `environment: [{name: ENV_VAR, value: ENV_VALUE}]` after its image |
| `Scenarios.RejectsNonObjectDocument` | index.test.js:259-275 | the document "hello" fails with "Invalid task definition format: containerDefinitions section is not present or is not an array" |
| `Scenarios.RejectsObjectDefinitions` | index.test.js:278-299 | `containerDefinitions: {}` fails with the same message |
| `Scenarios.RejectsObjectEnvironment` | index.test.js:302-329 | `environment: {}` on `web` fails with "Invalid task definition format: environment section is not an array" |
| `Scenarios.RejectsMissingContainer` | index.test.js:332-364 | with only a `main` container, the target `web` fails with "Invalid task definition: Could not find container definition with matching name" |

## Left out

- Reading the four inputs (`core.getInput`), reporting the output path (`core.setOutput`) and reporting a failure (`core.setFailed`) are host-platform I/O. The model returns a `Result` instead, and `Message` gives the reported text.
- The file-existence check and its "Task definition file does not exist: …" failure are left out, because they are filesystem I/O. So are allocating the temporary output file (prefix `task-definition-`, suffix `.json`, kept) and writing it.
- Resolving a relative path against `GITHUB_WORKSPACE`, or using an absolute path as is, is left out because it reads process state. The rendering part of the absolute-path test is modelled.
- Loading the file as JSON and writing the result back with two-space indentation are left out, because they are library calls. The model starts from a parsed value and ends with the returned value, and each object's member list stands for its own properties in their property order. Integer-like keys, which JavaScript orders first, never occur among the keys the renderer adds (`environment`, `name`, `value`).
- JSON numbers are carried as `real` values and never inspected. IEEE-754 doubles are not modelled.
- The action's implementation file is not part of this model. Where the tests are silent, the model makes these choices:
  - Duplicate container names: the first match is edited.
  - Duplicate variable names in one `environment`: the first entry is edited; later ones are left as they were.
  - Names are compared as exact strings. JavaScript's loose-equality coercions (a numeric `name`) are not modelled.
  - Array elements that are not objects never match a name.
  - An `environment` of `null` counts as present and not an array.
  - A parsed object never has two members with the same key. Where the model's member lists do, the first one is read and written.
