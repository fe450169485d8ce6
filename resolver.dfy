/** The container resolver of the remove route (removeUserContainer): turns a
    user name and an identifier into the user's containers to remove, trying
    the container name, then the routed host, then the project. */
module Resolver {
  import opened Seqs

  /** What the container listing reports of one container. */
  datatype Container = Container(names: seq<string>, labels: map<string, string>)

  /** What the resolver decides: the containers to remove, or that none matched. */
  datatype Resolution = Removed(targets: seq<Container>) | NotFound

  const UserLabel := "exoframe.user"
  const DeploymentLabel := "exoframe.deployment"
  const ProjectLabel := "exoframe.project"

  /** Strict equality of a label with a string: an absent label reads as
      undefined, which equals no string. */
  predicate LabelIs(c: Container, key: string, v: string) {
    key in c.labels && c.labels[key] == v
  }

  predicate OwnedBy(c: Container, username: string) {
    LabelIs(c, UserLabel, username)
  }

  /** The deployment label as it is spliced into a template string: an absent
      label is rendered as the text "undefined". */
  function DeploymentName(c: Container): string {
    if DeploymentLabel in c.labels then c.labels[DeploymentLabel] else "undefined"
  }

  /** The label key under which the container's own router rule is stored. */
  function RouterRuleKey(c: Container): string {
    "traefik.http.routers." + DeploymentName(c) + ".rule"
  }

  /** The router rule that routes host `id` to a deployment. */
  function HostRule(id: string): string {
    "Host(`" + id + "`)"
  }

  /** Docker lists container names with a leading slash. */
  function ContainerName(id: string): string {
    "/" + id
  }

  predicate NameHit(c: Container, username: string, id: string) {
    OwnedBy(c, username) && ContainerName(id) in c.names
  }

  predicate UrlHit(c: Container, username: string, id: string) {
    OwnedBy(c, username) && LabelIs(c, RouterRuleKey(c), HostRule(id))
  }

  predicate ProjectHit(c: Container, username: string, id: string) {
    OwnedBy(c, username) && LabelIs(c, ProjectLabel, id)
  }

  /** Name strategy: the first of the user's containers named `/id`. */
  function ByName(cs: seq<Container>, username: string, id: string): Option<nat> {
    FindFirst(cs, c => NameHit(c, username, id))
  }

  /** URL strategy: all of the user's containers routed to host `id`. */
  function ByUrl(cs: seq<Container>, username: string, id: string): seq<Container> {
    Filter(cs, c => UrlHit(c, username, id))
  }

  /** Project strategy: all of the user's containers of project `id`. */
  function ByProject(cs: seq<Container>, username: string, id: string): seq<Container> {
    Filter(cs, c => ProjectHit(c, username, id))
  }

  /** The first strategy with a hit decides; later strategies are not consulted.
      Whatever is removed comes from the listing and belongs to `username`. */
  function Resolve(cs: seq<Container>, username: string, id: string): (r: Resolution)
    ensures r.Removed? ==> |r.targets| > 0
    ensures r.Removed? ==> forall c :: c in r.targets ==> c in cs && OwnedBy(c, username)
  {
    match ByName(cs, username, id)
    case Some(i) => Removed([cs[i]])
    case None =>
      var byUrl := ByUrl(cs, username, id);
      if |byUrl| > 0 then Removed(byUrl)
      else
        var byProject := ByProject(cs, username, id);
        if |byProject| > 0 then Removed(byProject) else NotFound
  }

  /** A container of another user is never removed, whatever the identifier. */
  lemma OwnershipIsolation(cs: seq<Container>, username: string, id: string, other: Container)
    requires !LabelIs(other, UserLabel, username)
    ensures Resolve(cs, username, id).Removed? ==> other !in Resolve(cs, username, id).targets
  {
  }

  /** Name strategy: exactly the first owned container with a name equal to
      `/id` is removed, and nothing else, whatever the other strategies would find. */
  lemma NamePrecedence(cs: seq<Container>, username: string, id: string, i: nat)
    requires i < |cs| && NameHit(cs[i], username, id)
    requires forall j :: 0 <= j < i ==> !NameHit(cs[j], username, id)
    ensures Resolve(cs, username, id) == Removed([cs[i]])
  {
    FindFirstIs(cs, c => NameHit(c, username, id), i);
  }

  /** Names are compared exactly: a container whose names are `/id` followed
      by more text and the bare `id` without the slash is no name hit for `id`;
      alone in the listing with only its owner label, nothing is found. */
  lemma NameIsExact(username: string, id: string, suffix: string)
    requires suffix != []
    ensures var c := Container([ContainerName(id) + suffix, id], map[UserLabel := username]);
      Resolve([c], username, id) == NotFound
  {
    var c := Container([ContainerName(id) + suffix, id], map[UserLabel := username]);
    assert |ContainerName(id) + suffix| != |ContainerName(id)|;
    assert |id| != |ContainerName(id)|;
    assert !NameHit(c, username, id);
    assert |RouterRuleKey(c)| != |UserLabel|;
    assert !UrlHit(c, username, id) && !ProjectHit(c, username, id);
    assert ByName([c], username, id) == None;
    assert ByUrl([c], username, id) == [] && ByProject([c], username, id) == [] by {
      assert [c][..0] == [];
    }
  }

  /** URL strategy: when no container matches by name and some matches by
      host, exactly the user's containers routed to `id` are removed, in
      listing order. */
  lemma UrlStrategy(cs: seq<Container>, username: string, id: string, u: nat)
    requires forall j :: 0 <= j < |cs| ==> !NameHit(cs[j], username, id)
    requires u < |cs| && UrlHit(cs[u], username, id)
    ensures Resolve(cs, username, id).Removed?
    ensures var t, idx := Resolve(cs, username, id).targets, Positions(cs, c => UrlHit(c, username, id));
      && |t| == |idx|
      && (forall k :: 0 <= k < |t| ==> t[k] == cs[idx[k]])
      && (forall j :: 0 <= j < |cs| && UrlHit(cs[j], username, id) ==> j in idx)
  {
    var p := c => UrlHit(c, username, id);
    assert ByName(cs, username, id) == None;
    assert cs[u] in ByUrl(cs, username, id);
    FilterAtPositions(cs, p);
  }

  /** Project strategy: when nothing matches by name or host, exactly the
      user's containers of project `id` are removed, in listing order. */
  lemma ProjectStrategy(cs: seq<Container>, username: string, id: string, q: nat)
    requires forall j :: 0 <= j < |cs| ==> !NameHit(cs[j], username, id) && !UrlHit(cs[j], username, id)
    requires q < |cs| && ProjectHit(cs[q], username, id)
    ensures Resolve(cs, username, id).Removed?
    ensures var t, idx := Resolve(cs, username, id).targets, Positions(cs, c => ProjectHit(c, username, id));
      && |t| == |idx|
      && (forall k :: 0 <= k < |t| ==> t[k] == cs[idx[k]])
      && (forall j :: 0 <= j < |cs| && ProjectHit(cs[j], username, id) ==> j in idx)
  {
    var p := c => ProjectHit(c, username, id);
    assert ByName(cs, username, id) == None;
    assert ByUrl(cs, username, id) == [];
    assert cs[q] in ByProject(cs, username, id);
    FilterAtPositions(cs, p);
  }

  /** Nothing is found exactly when no strategy has a hit. */
  lemma NotFoundIff(cs: seq<Container>, username: string, id: string)
    ensures Resolve(cs, username, id) == NotFound <==>
      forall j :: 0 <= j < |cs| ==>
        !NameHit(cs[j], username, id) && !UrlHit(cs[j], username, id) && !ProjectHit(cs[j], username, id)
  {
    if Resolve(cs, username, id) == NotFound {
      forall j | 0 <= j < |cs|
        ensures !UrlHit(cs[j], username, id) && !ProjectHit(cs[j], username, id)
      {
        assert cs[j] !in ByUrl(cs, username, id);
        assert cs[j] !in ByProject(cs, username, id);
      }
    }
  }

  // Two replicas of one site, each behind its own router with the same host
  // rule, and a container of another user with the same project and host.

  const SiteRule := "Host(`site.example`)"
  const Web1 := Container(["/web-1"], map[UserLabel := "alice", DeploymentLabel := "g1",
    ProjectLabel := "proj1", "traefik.http.routers.g1.rule" := SiteRule])
  const Web2 := Container(["/web-2"], map[UserLabel := "alice", DeploymentLabel := "g2",
    ProjectLabel := "proj1", "traefik.http.routers.g2.rule" := SiteRule])
  const Web3 := Container(["/web-3"], map[UserLabel := "bob", DeploymentLabel := "g1",
    ProjectLabel := "proj1", "traefik.http.routers.g1.rule" := SiteRule])
  /** The two replicas of alice once their routing rules are gone. */
  const Bare1 := Container(["/web-1"], map[UserLabel := "alice", DeploymentLabel := "g1", ProjectLabel := "proj1"])
  const Bare2 := Container(["/web-2"], map[UserLabel := "alice", DeploymentLabel := "g2", ProjectLabel := "proj1"])

  /** Which of the three containers alice's host `site.example` hits. */
  lemma SiteHits()
    ensures UrlHit(Web1, "alice", "site.example") && UrlHit(Web2, "alice", "site.example")
    ensures !UrlHit(Web3, "alice", "site.example")
    ensures !NameHit(Web1, "alice", "site.example") && !NameHit(Web2, "alice", "site.example")
    ensures !NameHit(Web3, "alice", "site.example")
  {
    assert HostRule("site.example") == SiteRule;
    assert ContainerName("site.example")[1] == 's';
    assert DeploymentName(Web1) == "g1";
    assert RouterRuleKey(Web1) == "traefik.http.routers.g1.rule";
    assert DeploymentName(Web2) == "g2";
    assert RouterRuleKey(Web2) == "traefik.http.routers.g2.rule";
  }

  /** The host removes both replicas of alice, and bob's container stays. */
  lemma {:induction false} ScenarioByHost()
    ensures Resolve([Web1, Web3, Web2], "alice", "site.example") == Removed([Web1, Web2])
  {
    SiteHits();
    assert ByName([Web1, Web3, Web2], "alice", "site.example") == None;
    FilterOfThree(Web1, Web3, Web2, c => UrlHit(c, "alice", "site.example"));
  }

  /** The exact name removes only the named replica, though both share the host and project. */
  lemma {:induction false} ScenarioByName()
    ensures Resolve([Web1, Web3, Web2], "alice", "web-1") == Removed([Web1])
  {
    assert ContainerName("web-1") == "/web-1";
    assert NameHit(Web1, "alice", "web-1");
  }

  /** Without routing rules the project removes both replicas of alice. */
  lemma {:induction false} ScenarioByProject()
    ensures Resolve([Bare1, Web3, Bare2], "alice", "proj1") == Removed([Bare1, Bare2])
  {
    var id := "proj1";
    assert ContainerName(id)[1] == 'p';
    assert !NameHit(Bare1, "alice", id) && !NameHit(Bare2, "alice", id);
    assert RouterRuleKey(Bare1) !in Bare1.labels && RouterRuleKey(Bare2) !in Bare2.labels;
    assert ProjectHit(Bare1, "alice", id) && ProjectHit(Bare2, "alice", id) && !ProjectHit(Web3, "alice", id);
    assert ByName([Bare1, Web3, Bare2], "alice", id) == None;
    FilterOfThree(Bare1, Web3, Bare2, c => UrlHit(c, "alice", id));
    FilterOfThree(Bare1, Web3, Bare2, c => ProjectHit(c, "alice", id));
  }

  /** The name of bob's container finds nothing for alice. */
  lemma {:induction false} ScenarioOtherUsersName()
    ensures Resolve([Web1, Web3, Web2], "alice", "web-3") == NotFound
  {
    var id := "web-3";
    assert ContainerName(id)[5] == '3';
    assert HostRule(id)[6] == 'w';
    assert RouterRuleKey(Web1) == "traefik.http.routers.g1.rule";
    assert RouterRuleKey(Web2) == "traefik.http.routers.g2.rule";
    assert !NameHit(Web1, "alice", id) && !NameHit(Web2, "alice", id);
    assert !UrlHit(Web1, "alice", id) && !UrlHit(Web2, "alice", id);
    assert !ProjectHit(Web1, "alice", id) && !ProjectHit(Web2, "alice", id);
    assert ByName([Web1, Web3, Web2], "alice", id) == None;
    FilterOfThree(Web1, Web3, Web2, c => UrlHit(c, "alice", id));
    FilterOfThree(Web1, Web3, Web2, c => ProjectHit(c, "alice", id));
  }

  /** A container without a deployment label is matched by host through the
      router key `traefik.http.routers.undefined.rule`, because the missing
      label is spliced into the key as the text "undefined". */
  lemma {:induction false} MissingDeploymentLabel(id: string)
    ensures var c := Container([], map[UserLabel := "alice", "traefik.http.routers.undefined.rule" := HostRule(id)]);
      Resolve([c], "alice", id) == Removed([c])
  {
    var c := Container([], map[UserLabel := "alice", "traefik.http.routers.undefined.rule" := HostRule(id)]);
    assert RouterRuleKey(c) == "traefik.http.routers.undefined.rule";
    assert !NameHit(c, "alice", id);
    assert UrlHit(c, "alice", id);
    assert ByUrl([c], "alice", id) == [c] by {
      assert [c][..0] == [];
    }
  }
}
