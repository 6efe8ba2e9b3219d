/**
 * The static transformation table, keyed by tool name with "*" as the
 * fallback, and the lookup that picks a tool's program from it.
 */
module Config {
  import opened Wrappers
  import opened Json
  import opened Filters

  /** The keys the repository lookup tool is projected onto, in output order. */
  const RepoKeys: seq<string> := ["id", "name", "defaultBranch", "remoteUrl"]

  /** The pull-request walk: drops `_links`, `href` and any key ending in `url` or `Url`. */
  const PullRequestRule: KeyRule := LinkOrUrl

  /** The default walk: drops exactly the keys `_links`, `url` and `href`. */
  const WildcardRule: KeyRule := AnyOf({"_links", "url", "href"})

  const RepoTool: string := "repo_get_repo_by_name_or_id"
  const PullRequestTool: string := "repo_get_pull_request_by_id"
  const Wildcard: string := "*"

  /** The compiled table: each configured source replaced by the program it compiles to. */
  const Compiled: map<string, Filter> := map[
    RepoTool := Projection(RepoKeys),
    PullRequestTool := Walk(PullRequestRule),
    Wildcard := Walk(WildcardRule)
  ]

  /** The program for a tool: its own entry if it has one, the "*" entry otherwise. */
  function Resolve(table: map<string, Filter>, name: string): (r: Option<Filter>)
    ensures name in table ==> r == Some(table[name])
    ensures name !in table && Wildcard in table ==> r == Some(table[Wildcard])
    ensures r.None? <==> name !in table && Wildcard !in table
  {
    if name in table then Some(table[name])
    else if Wildcard in table then Some(table[Wildcard])
    else None
  }

  /**
   * With the configured table every tool gets a program: the two named
   * tools their own, every other tool the default walk.
   */
  lemma EveryToolResolves(name: string)
    ensures Resolve(Compiled, name).Some?
    ensures name == RepoTool ==> Resolve(Compiled, name) == Some(Projection(RepoKeys))
    ensures name == PullRequestTool ==> Resolve(Compiled, name) == Some(Walk(PullRequestRule))
    ensures name != RepoTool && name != PullRequestTool ==> Resolve(Compiled, name) == Some(Walk(WildcardRule))
  {
  }

  /** The projection's keys are distinct, so each output key holds exactly one value. */
  lemma RepoKeysDistinct()
    ensures Distinct(RepoKeys)
  {
  }

  /**
   * Every key the default walk drops is also dropped by the pull-request
   * walk, so the latter subsumes the former in either order.
   */
  lemma PullRequestRuleSubsumesWildcard(j: Json)
    ensures forall k :: Drops(WildcardRule, k) ==> Drops(PullRequestRule, k)
    ensures Strip(PullRequestRule, Strip(WildcardRule, j)) == Strip(PullRequestRule, j)
    ensures Strip(WildcardRule, Strip(PullRequestRule, j)) == Strip(PullRequestRule, j)
  {
    assert EndsWith("url", "url");
    StripAbsorbs(WildcardRule, PullRequestRule, j);
  }

  /** Keys the pull-request walk drops and keeps, at the suffix boundary. */
  lemma PullRequestRuleCases()
    ensures Drops(PullRequestRule, "remoteUrl") && Drops(PullRequestRule, "url")
    ensures Drops(PullRequestRule, "_links") && Drops(PullRequestRule, "href")
    ensures !Drops(PullRequestRule, "urls") && !Drops(PullRequestRule, "URL")
    ensures !Drops(PullRequestRule, "hrefs") && !Drops(PullRequestRule, "links")
  {
    assert "remoteUrl"[6..] == "Url";
    assert "urls"[1..] != "url" && "urls"[1..] != "Url";
    assert "URL"[0..] != "url";
  }
}
