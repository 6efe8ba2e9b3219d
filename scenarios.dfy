/** End-to-end behaviour of a wrapped tool under the configured table. */
module Scenarios {
  import opened Wrappers
  import opened Json
  import opened Filters
  import opened Transform
  import opened Config

  /** What calling the wrapped tool `name` returns for the upstream result `result`. */
  function Call(name: string, parse: string -> Option<Json>, result: ToolResult): (o: Outcome)
    ensures o.Unchanged? ==> o.result == result
    ensures o.Replaced? ==> SingleText(result) && (o.structured.Obj? || o.structured.Null?)
  {
    CustomOutput(Run(Resolve(Compiled, name)), parse, result)
  }

  const RepoInput: Json := Obj([("id", Str("1")), ("name", Str("r")), ("defaultBranch", Str("main")),
                                ("remoteUrl", Str("https://x")), ("extra", Str("drop-me"))])

  const RepoOutput: Json := Obj([("id", Str("1")), ("name", Str("r")), ("defaultBranch", Str("main")),
                                 ("remoteUrl", Str("https://x"))])

  lemma RepoProjectionFields()
    ensures ProjectFields(RepoKeys, RepoInput) == RepoOutput.fields
  {
    var fs := RepoInput.fields;
    assert Keys(fs) == ["id", "name", "defaultBranch", "remoteUrl", "extra"];
    assert Distinct(Keys(fs));
    GetUnique(fs, 0);
    GetUnique(fs, 1);
    GetUnique(fs, 2);
    GetUnique(fs, 3);
    var out := ProjectFields(RepoKeys, RepoInput);
    assert |Keys(out)| == |out| == 4;
  }

  lemma RepoProgramOutput()
    ensures Run(Resolve(Compiled, RepoTool))(RepoInput) == Emission([RepoOutput], false)
  {
    RepoProjectionFields();
    assert Resolve(Compiled, RepoTool) == Some(Projection(RepoKeys));
  }

  /** The repository lookup keeps the four projected keys and drops the rest. */
  lemma RepoProjectionScenario(parse: string -> Option<Json>, text: string)
    requires parse(text) == Some(RepoInput)
    ensures Call(RepoTool, parse, ToolResult([TextPart(text)], None)) == Replaced(RepoOutput)
  {
    RepoProgramOutput();
  }

  /** Any other tool gets the default walk, which drops `url` and `href` at every depth. */
  lemma WildcardScenario(name: string, parse: string -> Option<Json>, text: string)
    requires name != RepoTool && name != PullRequestTool
    requires parse(text) == Some(Obj([("a", Obj([("url", Str("u")), ("b", Num(1))])), ("href", Str("h"))]))
    ensures Call(name, parse, ToolResult([TextPart(text)], None)) == Replaced(Obj([("a", Obj([("b", Num(1))]))]))
  {
    var inner := [("url", Str("u")), ("b", Num(1))];
    assert StripFields(WildcardRule, inner) == [("b", Num(1))];
  }

  const PullRequestInput: Json := Obj([("title", Str("t")), ("url", Str("u")),
    ("reviewers", Arr([Obj([("id", Num(1)), ("imageUrl", Str("i"))])])), ("_links", Obj([("web", Str("w"))]))])

  const PullRequestOutput: Json := Obj([("title", Str("t")), ("reviewers", Arr([Obj([("id", Num(1))])]))])

  lemma PullRequestStrip()
    ensures Strip(PullRequestRule, PullRequestInput) == PullRequestOutput
  {
    assert Drops(PullRequestRule, "imageUrl") by { assert "imageUrl"[5..] == "Url"; }
    assert !Drops(PullRequestRule, "reviewers") by { assert "reviewers"[6..] != "url" && "reviewers"[6..] != "Url"; }
    assert !Drops(PullRequestRule, "title") && !Drops(PullRequestRule, "id");
    var reviewer := Obj([("id", Num(1)), ("imageUrl", Str("i"))]);
    assert Strip(PullRequestRule, reviewer) == Obj([("id", Num(1))]);
    assert StripAll(PullRequestRule, [reviewer]) == [Obj([("id", Num(1))])];
    var fs := PullRequestInput.fields;
    assert StripFields(PullRequestRule, fs[3..]) == [];
    assert StripFields(PullRequestRule, fs[2..]) == [("reviewers", Arr([Obj([("id", Num(1))])]))];
    assert StripFields(PullRequestRule, fs[1..]) == StripFields(PullRequestRule, fs[2..]);
  }

  lemma PullRequestProgramOutput()
    ensures Run(Resolve(Compiled, PullRequestTool))(PullRequestInput) == Emission([PullRequestOutput], false)
  {
    PullRequestStrip();
    assert Resolve(Compiled, PullRequestTool) == Some(Walk(PullRequestRule));
  }

  /** The pull-request walk also drops keys ending in `Url`, inside arrays too, and keeps the rest in order. */
  lemma PullRequestScenario(parse: string -> Option<Json>, text: string)
    requires parse(text) == Some(PullRequestInput)
    ensures Call(PullRequestTool, parse, ToolResult([TextPart(text)], None)) == Replaced(PullRequestOutput)
  {
    PullRequestProgramOutput();
  }

  /** A result of two content parts comes back as it was, whatever the tool. */
  lemma TwoPartScenario(name: string, parse: string -> Option<Json>, a: string, b: string)
    ensures Call(name, parse, ToolResult([TextPart(a), TextPart(b)], None)) ==
      Unchanged(ToolResult([TextPart(a), TextPart(b)], None))
  {
  }

  /** A scalar first output is wrapped under "result"; an object first output is used as it is. */
  lemma WrappingScenario(parse: string -> Option<Json>, result: ToolResult)
    requires SingleText(result) && parse(TextOf(result)).Some?
    ensures CustomOutput((j: Json) => Emission([Num(5)], false), parse, result) == Replaced(Obj([("result", Num(5))]))
    ensures CustomOutput((j: Json) => Emission([Obj([("id", Str("42")), ("name", Str("repo"))])], true), parse, result) ==
      Replaced(Obj([("id", Str("42")), ("name", Str("repo"))]))
  {
  }

  /**
   * Every tool other than the two named ones, on every parsed input, returns
   * the default walk of that input, wrapped when it is not an object or null;
   * the walked value has no `_links`, `url` or `href` key at any depth.
   */
  lemma WildcardAllInputs(name: string, parse: string -> Option<Json>, result: ToolResult, j: Json)
    requires name != RepoTool && name != PullRequestTool
    requires SingleText(result) && parse(TextOf(result)) == Some(j)
    ensures Call(name, parse, result) == Replaced(Wrap(Strip(WildcardRule, j)))
    ensures j.Obj? || j.Null? ==> Call(name, parse, result) == Replaced(Strip(WildcardRule, j))
    ensures Clean(WildcardRule, Strip(WildcardRule, j))
  {
    StripIsClean(WildcardRule, j);
    assert Resolve(Compiled, name) == Some(Walk(WildcardRule));
  }

  /**
   * The repository lookup, on every parsed object, returns an object whose
   * keys are exactly the four projected ones, each holding the input's value
   * for it or null; no other input key survives.
   */
  lemma RepoAllObjects(parse: string -> Option<Json>, result: ToolResult, fs: seq<(string, Json)>, k: string)
    requires SingleText(result) && parse(TextOf(result)) == Some(Obj(fs))
    ensures Call(RepoTool, parse, result).Replaced?
    ensures Call(RepoTool, parse, result).structured.Obj?
    ensures Keys(Call(RepoTool, parse, result).structured.fields) == RepoKeys
    ensures k in RepoKeys && k in Keys(fs) ==> Get(Call(RepoTool, parse, result).structured.fields, k) == Get(fs, k)
    ensures k in RepoKeys && k !in Keys(fs) ==> Get(Call(RepoTool, parse, result).structured.fields, k) == Some(Null)
    ensures k !in RepoKeys ==> Get(Call(RepoTool, parse, result).structured.fields, k) == None
  {
    assert Resolve(Compiled, RepoTool) == Some(Projection(RepoKeys));
    assert Call(RepoTool, parse, result) == Replaced(Obj(ProjectFields(RepoKeys, Obj(fs))));
    RepoKeysDistinct();
    ProjectObject(RepoKeys, fs, k);
  }

  /** The repository lookup on a parsed value that is neither an object nor null raises, so the result is unchanged. */
  lemma RepoNonObjectUnchanged(parse: string -> Option<Json>, result: ToolResult, j: Json)
    requires SingleText(result) && parse(TextOf(result)) == Some(j)
    requires !j.Obj? && !j.Null?
    ensures Call(RepoTool, parse, result) == Unchanged(result)
  {
    assert Resolve(Compiled, RepoTool) == Some(Projection(RepoKeys));
  }
}
