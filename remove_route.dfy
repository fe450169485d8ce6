/** The handler of `POST /remove/:id`: the function remover first, then the
    plugins that can remove, in order, until an exclusive one has run, then
    the container resolver. */
module RemoveRoute {
  import opened Seqs
  import opened Resolver

  /** A loaded plugin, seen only through whether it has a `remove` hook and
      whether its configuration marks it exclusive. */
  datatype Plugin = Plugin(name: string, hasRemove: bool, exclusive: bool)

  /** What the handler sends back itself. */
  datatype Body = Text(text: string) | ErrorBody(error: string)
  datatype Reply = Reply(code: nat, body: Body)

  /** How the request ended. */
  datatype Outcome =
    | FunctionRemoved
    | PluginClaimed(plugin: nat)          // an exclusive plugin ran; it owns the reply
    | Fallback(resolution: Resolution)    // the container resolver ran

  /** The plugins called, by index into the plugin list, and how the request ended. */
  datatype Run = Run(invoked: seq<nat>, outcome: Outcome)

  const NotFoundMessage := "Container or function not found!"

  predicate Invokable(p: Plugin) {
    p.hasRemove
  }

  /** A plugin that is called and then stops the chain. */
  predicate Halts(p: Plugin) {
    p.hasRemove && p.exclusive
  }

  /** The run the route is meant to produce. */
  function Expected(functionRemoved: bool, plugins: seq<Plugin>, cs: seq<Container>,
                    username: string, id: string): Run
  {
    if functionRemoved then Run([], FunctionRemoved)
    else match FindFirst(plugins, Halts)
      case Some(k) => Run(Positions(plugins[..k + 1], Invokable), PluginClaimed(k))
      case None => Run(Positions(plugins, Invokable), Fallback(Resolve(cs, username, id)))
  }

  /** The reply the handler sends; None when an exclusive plugin answers instead. */
  function ReplyOf(o: Outcome): (r: Option<Reply>)
    ensures r.None? <==> o.PluginClaimed?
    ensures r.Some? ==> (r.value.code == 404 <==> o == Fallback(NotFound))
    ensures r.Some? ==> r.value == Reply(204, Text("removed")) || r.value == Reply(404, ErrorBody(NotFoundMessage))
  {
    match o
    case FunctionRemoved => Some(Reply(204, Text("removed")))
    case PluginClaimed(_) => None
    case Fallback(Removed(_)) => Some(Reply(204, Text("removed")))
    case Fallback(NotFound) => Some(Reply(404, ErrorBody(NotFoundMessage)))
  }

  /** The containers the resolver tears down; removals made by plugins or by
      the function remover are not part of the model. */
  function ResolverTargets(o: Outcome): seq<Container> {
    if o.Fallback? && o.resolution.Removed? then o.resolution.targets else []
  }

  /** The route handler. `functionRemoved` is what the function remover
      answered for (`id`, `username`); `plugins` is the loaded plugin list;
      `cs` is the container listing the resolver would read. */
  method Handle(functionRemoved: bool, plugins: seq<Plugin>, cs: seq<Container>,
                username: string, id: string) returns (run: Run)
    ensures run == Expected(functionRemoved, plugins, cs, username, id)
  {
    if functionRemoved {
      return Run([], FunctionRemoved);
    }
    var invoked: seq<nat> := [];
    for i := 0 to |plugins|
      invariant invoked == Positions(plugins[..i], Invokable)
      invariant forall j :: 0 <= j < i ==> !Halts(plugins[j])
    {
      if !plugins[i].hasRemove {
        assert plugins[..i + 1][..i] == plugins[..i];
        continue;
      }
      invoked := invoked + [i];
      assert plugins[..i + 1][..i] == plugins[..i];
      if plugins[i].exclusive {
        FindFirstIs(plugins, Halts, i);
        return Run(invoked, PluginClaimed(i));
      }
    }
    assert plugins[..|plugins|] == plugins;
    return Run(invoked, Fallback(Resolve(cs, username, id)));
  }

  /** When the function remover succeeds the reply is 204, no plugin is
      called and the resolver tears nothing down. */
  lemma FunctionPrecedence(plugins: seq<Plugin>, cs: seq<Container>, username: string, id: string)
    ensures var run := Expected(true, plugins, cs, username, id);
      && run.invoked == []
      && ReplyOf(run.outcome) == Some(Reply(204, Text("removed")))
      && ResolverTargets(run.outcome) == []
  {
  }

  /** Plugins are called in list order and only those with a `remove` hook;
      every plugin with a hook is called up to the point where the chain stops. */
  lemma InvokedInOrder(functionRemoved: bool, plugins: seq<Plugin>, cs: seq<Container>,
                       username: string, id: string)
    ensures var run := Expected(functionRemoved, plugins, cs, username, id);
      && (forall k :: 0 <= k < |run.invoked| ==>
            run.invoked[k] < |plugins| && plugins[run.invoked[k]].hasRemove)
      && (forall k, l :: 0 <= k < l < |run.invoked| ==> run.invoked[k] < run.invoked[l])
      && (!functionRemoved && run.outcome.Fallback? ==>
            forall j :: 0 <= j < |plugins| && plugins[j].hasRemove ==> j in run.invoked)
  {
    var run := Expected(functionRemoved, plugins, cs, username, id);
    if !functionRemoved && FindFirst(plugins, Halts).Some? {
      var k := FindFirst(plugins, Halts).value;
      forall m | 0 <= m < |run.invoked|
        ensures run.invoked[m] < |plugins| && plugins[run.invoked[m]].hasRemove
      {
        assert plugins[..k + 1][run.invoked[m]] == plugins[run.invoked[m]];
      }
    }
  }

  /** The first plugin with a `remove` hook and the exclusive flag is the last
      one called, whatever it returns; every earlier plugin with a hook is
      called, no later one is, and the resolver neither runs nor tears anything down. */
  lemma ExclusiveHalts(plugins: seq<Plugin>, cs: seq<Container>, username: string, id: string, k: nat)
    requires k < |plugins| && plugins[k].hasRemove && plugins[k].exclusive
    requires forall j :: 0 <= j < k ==> !(plugins[j].hasRemove && plugins[j].exclusive)
    ensures var run := Expected(false, plugins, cs, username, id);
      && run.outcome == PluginClaimed(k)
      && |run.invoked| > 0 && run.invoked[|run.invoked| - 1] == k
      && (forall m :: 0 <= m < |run.invoked| ==> run.invoked[m] <= k)
      && (forall j :: 0 <= j <= k && plugins[j].hasRemove ==> j in run.invoked)
      && ResolverTargets(run.outcome) == []
      && ReplyOf(run.outcome) == None
  {
    FindFirstIs(plugins, Halts, k);
    var pre := plugins[..k + 1];
    assert pre[k] == plugins[k];
    assert Positions(pre, Invokable) == Positions(pre[..k], Invokable) + [k];
    forall j | 0 <= j <= k && plugins[j].hasRemove
      ensures j in Positions(pre, Invokable)
    {
      assert pre[j] == plugins[j];
    }
  }

  /** An exclusive flag on a plugin without a `remove` hook neither gets the
      plugin called nor stops the chain: flipping that flag changes nothing. */
  lemma ExclusiveWithoutRemoveIgnored(plugins: seq<Plugin>, cs: seq<Container>,
                                      username: string, id: string, j: nat)
    requires j < |plugins| && !plugins[j].hasRemove && plugins[j].exclusive
    ensures var run := Expected(false, plugins, cs, username, id);
      && j !in run.invoked
      && run.outcome != PluginClaimed(j)
    ensures Expected(false, plugins, cs, username, id) ==
      Expected(false, plugins[j := plugins[j].(exclusive := false)], cs, username, id)
  {
    InvokedInOrder(false, plugins, cs, username, id);
    var flipped := plugins[j := plugins[j].(exclusive := false)];
    FindFirstAgree(plugins, flipped, Halts);
    PositionsAgree(plugins, flipped, Invokable);
    match FindFirst(plugins, Halts)
    case Some(k) =>
      var pre, flippedPre := plugins[..k + 1], flipped[..k + 1];
      forall i | 0 <= i < |pre|
        ensures Invokable(pre[i]) == Invokable(flippedPre[i])
      {
        assert pre[i] == plugins[i] && flippedPre[i] == flipped[i];
      }
      PositionsAgree(pre, flippedPre, Invokable);
    case None =>
  }

  /** The resolver runs exactly when the function remover failed and no
      called plugin is exclusive. */
  lemma FallbackIff(functionRemoved: bool, plugins: seq<Plugin>, cs: seq<Container>,
                    username: string, id: string)
    ensures var run := Expected(functionRemoved, plugins, cs, username, id);
      run.outcome.Fallback? <==>
        !functionRemoved && forall m :: 0 <= m < |run.invoked| ==> !plugins[run.invoked[m]].exclusive
  {
    var run := Expected(functionRemoved, plugins, cs, username, id);
    InvokedInOrder(functionRemoved, plugins, cs, username, id);
    if !functionRemoved {
      match FindFirst(plugins, Halts)
      case Some(k) =>
        ExclusiveHalts(plugins, cs, username, id, k);
        assert plugins[run.invoked[|run.invoked| - 1]].exclusive;
      case None =>
    }
  }

  /** On every path of the route, the containers the resolver tears down are
      in the listing and belong to the requesting user. */
  lemma RouteOwnershipIsolation(functionRemoved: bool, plugins: seq<Plugin>, cs: seq<Container>,
                                username: string, id: string)
    ensures forall c :: c in ResolverTargets(Expected(functionRemoved, plugins, cs, username, id).outcome) ==>
      c in cs && OwnedBy(c, username)
  {
  }

  /** Four plugins, all with a `remove` hook, the second one exclusive: the
      first two are called and neither the last two nor the resolver run. */
  lemma {:induction false} ExclusiveSecondOfFour(cs: seq<Container>, username: string, id: string)
    ensures Expected(false, [Plugin("a", true, false), Plugin("b", true, true),
                             Plugin("c", true, false), Plugin("d", true, true)], cs, username, id)
      == Run([0, 1], PluginClaimed(1))
  {
    var ps := [Plugin("a", true, false), Plugin("b", true, true),
               Plugin("c", true, false), Plugin("d", true, true)];
    FindFirstIs(ps, Halts, 1);
    var pre := ps[..2];
    assert pre[..1] == [ps[0]] && pre[..1][..0] == [];
    assert Positions(pre[..1][..0], Invokable) == [];
    assert Positions(pre[..1], Invokable) == [0];
    assert Positions(pre, Invokable) == [0, 1];
  }
}
