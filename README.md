# ADO MCP transform proxy — a Dafny model

The proxy sits in front of the Azure DevOps MCP server. For every upstream
tool it registers a wrapped tool under the same name. The wrapped tool
forwards the call. When the result is a single text part, it parses it as
JSON, runs a jq program chosen for that tool, and returns the program's
first output as structured content. A dict or null output is used as it
is; any other output `v` becomes `{"result": v}`. When the result is not a
single text part, when parsing fails, when the program raises or when it
emits no output, the upstream result comes back untouched. A failure of the
forwarded call itself happens before any of this and reaches the caller.

This project models four parts of `main.py`:

- **The transformation table and its lookup** (`Config`). A tool uses the
  entry for its exact name, or the `"*"` entry when it has none. The compiled
  table is a constant `map<string, Filter>`. Each jq source is replaced by
  the program it denotes.
- **The output transform** (`Transform.CustomOutput`). This is a total
  function from a program, a JSON parser and the forwarded result to an
  `Outcome`: either `Unchanged(result)` or `Replaced(structured)`. The
  parser `json.loads` and the jq program are function parameters, so the
  transform is modelled whatever they do.
- **The three configured programs** (`Filters`). They run over a JSON value
  datatype (`Json`):
  - the projection onto `id`, `name`, `defaultBranch`, `remoteUrl`;
  - the pull-request walk, which deletes keys equal to `_links` or `href`
    or ending in `url`/`Url`;
  - the default walk, which deletes keys equal to `_links`, `url` or `href`.
- **The startup loop** (`Setup.Proxy.Setup`). This is a class holding the
  tool registry (`map<string, Entry>`) and the sequence of registry calls
  made. For each catalogue tool, a loop resolves the program, builds the
  wrapped tool, calls `AddTool` and then disables the copy.

A JSON object is its list of entries in insertion order. A lookup takes the
last entry for a key, as the dict built by `json.loads` does. jq's `.first()`
is lazy, so a program run is an `Emission`: the outputs produced and whether
an error followed them. An error after the first output is never seen.

Three behaviours of the code are worth stating:

- A `null` first output is passed on as it is, not wrapped under `"result"`.
- The object disabled after registration is the copy the wrapped tool was
  built from (`copied_tool.disable()`), not the registered original. The
  name then reaches the wrapped tool only because `add_tool` replaces the
  registration under that name. This is an assumption about fastmcp, made
  explicit in `Proxy.AddTool`.
- Every tool is wrapped, including one whose lookup finds nothing (possible
  only for a table without `"*"`). Calling the missing program raises inside
  the `try`, so such a tool returns results unchanged
  (`Transform.NoProgramPassesThrough`).

## Model

| member | source | states |
|---|---|---|
| `Json.Get` | main.py:55 | A key is found exactly when it is one of the entry list's keys; the value found is stored under that key |
| `Json.GetUnique` | main.py:55 | In an entry list with no repeated key, looking up an entry's key returns that entry's value |
| `Json.GetIsLast` | main.py:55 | When a key occurs more than once, the value found is that of its last entry, as in the dict `json.loads` builds |
| `Json.Index` | main.py:35 | jq's `.k` gives null on null, gives the stored value or null on an object, and raises on any other value |
| `Filters.Strip` | main.py:36-37 | The walk keeps each value's kind, keeps every array's length, and leaves scalars unchanged |
| `Filters.Drops` | main.py:36-37 | The default rule deletes a key exactly when it is one of `_links`, `url`, `href`; the pull-request rule exactly when the key is `_links` or `href`, or ends in `u` or `U` followed by `rl` |
| `Filters.StripFields` | main.py:36-37 | The entry filter of the walk never lengthens an object's entry list |
| `Filters.StripAll` | main.py:36-37 | Walking an array walks each element in place |
| `Filters.StripIsClean` | main.py:36-37 | After the walk, no object at any depth has a key that the rule drops |
| `Filters.StripFieldsClean` | main.py:36-37 | No entry the walk keeps has a dropped key, and each kept value is clean at every depth |
| `Filters.CleanIsFixpoint` | main.py:36-37 | A value with no dropped key at any depth comes out of the walk unchanged |
| `Filters.CleanFieldsFixpoint` | main.py:36-37 | An entry list with no dropped key at any depth comes out of the walk unchanged |
| `Filters.StripFixpointIff` | main.py:36-37 | The walk leaves a value unchanged if and only if the value has no dropped key at any depth |
| `Filters.StripIdempotent` | main.py:36-37 | Applying either walk twice equals applying it once |
| `Filters.StripKeepsOrder` | main.py:36-37 | The keys of a walked object are the original keys the rule keeps, in their original order |
| `Filters.StripLookup` | main.py:36-37 | After the walk, a dropped key is absent; any other key holds its original value, itself walked |
| `Filters.CleanWeaken` | main.py:36-37 | A value with no key dropped by a wider rule has no key dropped by a narrower one either |
| `Filters.StripAbsorbs` | main.py:36-37 | Walking with a narrower rule before or after a wider one gives the wider walk's result |
| `Filters.StripFieldsAbsorb` | main.py:36-37 | The same absorption holds for the entries of an object |
| `Filters.ProjectFields` | main.py:35 | The projection has exactly the listed keys, in order, each holding `.k` of the input |
| `Filters.ProjectObject` | main.py:35 | On an object, each listed key holds the input's value for it, or null when the input lacks it; any unlisted key (such as `extra`) is absent |
| `Filters.Execute` | main.py:35-37 | A configured program emits at most one output and raises exactly when it emits none. A walk emits the walked input, which is clean. The projection emits an output exactly on an object or null (raising on anything else), and that output is an object with the listed keys, each holding `.k` of the input |
| `Transform.First` | main.py:56 | `.first()` finds an output exactly when the program emitted one, and returns the earliest |
| `Transform.Wrap` | main.py:58-59 | The structured content is always an object or null: a dict or null is used as it is, any other value `v` becomes the one-key object `{"result": v}` |
| `Transform.CustomOutput` | main.py:46-65 | The result is replaced if and only if it is one text part, it parses, and the program emits an output. Otherwise the original result comes back unchanged. A dict or null first output is used as it is; any other value becomes `{"result": v}` |
| `Transform.Run` | main.py:79 | The closure a wrapped tool carries emits at most one output per input; with no program it emits nothing and raises on every input; with a program it runs that program |
| `Transform.OnlyFirstOutputMatters` | main.py:56 | Two programs that agree on their first output (or lack of one) give the same outcome, whatever they emit or raise after it |
| `Transform.NoProgramPassesThrough` | main.py:54-64 | A wrapped tool whose lookup found no program returns every result unchanged |
| `Config.Resolve` | main.py:74 | The lookup returns the exact-name entry when there is one, else the `"*"` entry; it returns nothing only when neither exists |
| `Config.EveryToolResolves` | main.py:34-44 | With the configured table every tool gets a program: the two named tools get their own, every other tool the default walk |
| `Config.RepoKeysDistinct` | main.py:35 | The four projected keys are distinct |
| `Config.PullRequestRuleSubsumesWildcard` | main.py:36-37 | The pull-request rule drops every key the default rule drops, so the pull-request walk absorbs the default walk in either order |
| `Config.PullRequestRuleCases` | main.py:36 | The anchored pattern matches `remoteUrl`, `url`, `_links` and `href`; it does not match `urls`, `URL`, `hrefs` or `links` |
| `Setup.InstalledKeys` | main.py:73-86 | The names setup registers are exactly the catalogue's names |
| `Setup.InstalledBinding` | main.py:73-86 | Each catalogue name ends up bound to an enabled wrapped tool carrying the program resolved for that name |
| `Setup.SetupLogOrder` | main.py:84-86 | For the i-th tool, call 2i adds its wrapped tool and call 2i+1 disables its copy, so every add comes before its disable |
| `Setup.SetupLogLength` | main.py:73-86 | Setup makes exactly two registry calls per catalogue tool |
| `Setup.Wrapped` | main.py:76-82 | The wrapped tool keeps the tool's name and always carries a program: the table entry for that name, or the default walk |
| `Setup.Proxy.Lookup` | main.py:85 | A name reaches a tool exactly when an enabled registration exists under it. This stands for fastmcp's dispatch by name, which main.py does not show; it is the view of the registry that `add_tool` changes |
| `Setup.Proxy.AddTool` | main.py:85 | Registers the tool enabled under its name, replacing any earlier registration; no other name changes |
| `Setup.Proxy.DisableCopy` | main.py:86 | Records the disabling of the copy; the registry stays the same |
| `Setup.Proxy.Setup` | main.py:73-86 | Afterwards the registry is the old one overridden by a wrapped tool for each catalogue name. The calls made are add-then-disable per tool, in catalogue order. When the catalogue listed the proxy's own tools, the visible names are exactly the catalogue's. Every catalogue name reaches its wrapped tool, and every other name is unaffected |
| `Scenarios.RepoProjectionScenario` | main.py:35 | The repository lookup turns `{"id","name","defaultBranch","remoteUrl","extra"}` into the same object without `extra` |
| `Scenarios.WildcardScenario` | main.py:37 | Any other tool turns `{"a":{"url":"u","b":1},"href":"h"}` into `{"a":{"b":1}}` |
| `Scenarios.PullRequestScenario` | main.py:36 | The pull-request tool drops `url`, `_links` and, inside an array, `imageUrl`, and keeps `title`, `reviewers` and `id` in their order |
| `Scenarios.TwoPartScenario` | main.py:50-53 | A result of two content parts comes back unchanged, whatever the tool |
| `Scenarios.WrappingScenario` | main.py:58-61 | A first output `5` becomes `{"result": 5}`; a first output `{"id":"42","name":"repo"}` is used as it is, even when the program raises afterwards |
| `Scenarios.Call` | main.py:48-64 | One call of a configured wrapped tool either returns the upstream result unchanged or replaces it with an object or null, and replaces it only for a single text part |
| `Scenarios.WildcardAllInputs` | main.py:37 | For every parsed input, any tool other than the two named ones returns the default walk of it (wrapped unless an object or null), and that walk has no `_links`, `url` or `href` key at any depth |
| `Scenarios.RepoAllObjects` | main.py:35 | For every parsed object, the repository lookup returns an object whose keys are exactly `id`, `name`, `defaultBranch`, `remoteUrl`, each holding the input's value or null, with every other key gone |
| `Scenarios.RepoNonObjectUnchanged` | main.py:35 | On a parsed value that is neither an object nor null the projection raises, so the repository lookup returns the result unchanged |

## Left out

- Proxy construction and the upstream server configuration (main.py:19-31). These are process and network setup. `Proxy`'s constructor takes the initial registry as given.
- `forward(**kwargs)` (main.py:49). The forwarded result is an input to `CustomOutput`. An upstream failure raises before the `try`, reaches the caller unchanged, and is not modelled.
- Transport selection, argument parsing and `asyncio.run` (main.py:67-102). These are I/O and event-loop plumbing. `proxy.get_tools()` becomes `Setup`'s `available` parameter. The dict key of each tool is taken to be the tool's name.
- `json.loads` (main.py:55). It is the abstract `parse` parameter (None where it raises). The JSON grammar is not modelled.
- `jq.compile` and the general jq engine (main.py:41-44, 56). General programs are the abstract `apply` parameter. `Filters.Execute` gives the meaning of the three configured sources only. The import-time failure of a malformed source is not modelled, because the table is a constant.
- Oniguruma regex corner cases of the pull-request pattern (main.py:36). The model drops a key ending in `url`/`Url` even when a line feed precedes the suffix, and keeps a key that matches only when a final line feed is ignored. In the real pattern `.` does not cross a line feed and `$` also matches before a final line feed.
- Floating-point numbers. `Num` holds an integer, and jq's conversion of numbers to doubles (precision lost on very large integers) is not modelled.
- `ToolResult(structured_content=…)` internals (main.py:61). `Replaced(v)` stands for that call, including what fastmcp then does with a `null` value, and the model does not represent any exception the constructor could raise.
- `Tool.copy`, `Tool.from_tool`, `add_tool` and `disable` internals (main.py:76-86). A copy keeps the tool's name. `add_tool` is assumed to register the tool enabled and to replace the registration under its name. Disabling the copy is recorded in the call log only, because the copy is not registered.
- The truthiness test in the `or` at main.py:74. Compiled programs are taken to be truthy, so the `or` falls through only when the exact-name entry is missing.
- Objects with repeated keys. The model allows them, though a Python dict cannot hold them. The walks keep every entry and the lookup takes the last one.
