# Removal route of exoframe-server, modelled in Dafny

This project models `POST /remove/:id` of exoframe-server. That is the request by
which a user removes a deployment. The route tries three removal mechanisms in order:

1. The function remover (exoframe-faas). If it reports a removal, the reply is
   `204 removed`.
2. The loaded plugins, in list order. Only plugins with a `remove` hook are
   called. After a called plugin whose configuration is `exclusive`, the route
   stops and that plugin owns the reply.
3. The container resolver (`removeUserContainer`). It looks through the
   container listing for the user's containers, using three strategies in
   order. The first strategy with a hit decides:
   - **Name**: the first of the user's containers that has a name equal to
     `/` + id. This strategy removes one container.
   - **URL**: every user container whose router rule equals
     ``Host(`id`)``. The rule is the label
     `traefik.http.routers.<deployment>.rule`, where `<deployment>` is the
     container's own `exoframe.deployment` label.
   - **Project**: every user container whose `exoframe.project` label equals id.

   If no strategy has a hit, the reply is
   `404 {error: 'Container or function not found!'}`. Otherwise it is `204 removed`.

Modules:

- `Seqs` (`seqs.dfy`) models the array `find` and `filter` the resolver relies
  on. `FindFirst` returns the first index. `Filter` returns the kept elements.
  `Positions` returns the kept indices.
- `Resolver` (`resolver.dfy`) models the resolver as the pure function
  `Resolve`. It returns `Removed(targets)` or `NotFound`. The lemmas about it
  state ownership isolation, strategy precedence and exactly what each strategy
  selects. Concrete scenarios are included: two replicas behind one host, and a
  container of another user.
- `RemoveRoute` (`remove_route.dfy`) models the handler as the method `Handle`.
  Its loop walks the plugin list with `continue` and an early `return`. It
  returns a `Run` made of two parts: the indices of the plugins it called, and
  how the request ended (`FunctionRemoved`, `PluginClaimed(k)` or
  `Fallback(resolution)`). `Handle` is proved equal to the specification
  function `Expected`. The lemmas about `Expected` state the call-order,
  exclusivity and fallback rules.

Behaviour kept from the code:

- A label compared with `===` counts as missing when it is absent. Absent is
  `undefined`, and `undefined` equals no string. So a container without an
  `exoframe.user` label is never anyone's.
- A missing `exoframe.deployment` label is spliced into the router key as the
  text `undefined`. The URL strategy then reads `traefik.http.routers.undefined.rule`.
  See `Resolver.MissingDeploymentLabel`.
- The name strategy uses `find`, so it yields one container even when several
  of the user's containers carry the name.
- After non-exclusive plugins have run, the resolver still runs, and a resolver
  miss still replies 404.

## Model

| member | source | states |
|---|---|---|
| `Seqs.FindFirst` | src/routes/remove.js:12-14 | the index returned holds an element satisfying the predicate and no earlier element does; None only when no element does |
| `Seqs.Filter` | src/routes/remove.js:24-29 | an element is kept exactly when it is in the listing and satisfies the predicate; the result is empty exactly when no element satisfies it |
| `Seqs.FilterCounts` | src/routes/remove.js:38-40 | filtering keeps every occurrence of a matching container and none of the others (multiset selection) |
| `Seqs.Positions` | src/routes/remove.js:24-29 | the kept indices are strictly increasing, in range, and cover every matching index |
| `Seqs.FilterAtPositions` | src/routes/remove.js:24-35 | the filtered list is the listing read at those indices, so its order is listing order |
| `Resolver.Resolve` | src/routes/remove.js:9-49 | a removal is never empty, and every removed container comes from the listing and carries `exoframe.user == username` |
| `Resolver.OwnershipIsolation` | src/routes/remove.js:12-40 | a container of another user, or one without an owner label, is never removed, whatever the id |
| `Resolver.NamePrecedence` | src/routes/remove.js:12-21 | when the first name hit is container i, exactly `[cs[i]]` is removed, whatever the URL and project strategies would match |
| `Resolver.NameIsExact` | src/routes/remove.js:12-14 | names compare with `===`: a container named `/id` plus more text, or the bare `id`, is no name hit for `id`; alone in the listing with only its owner label, the resolver reports not found |
| `Resolver.UrlStrategy` | src/routes/remove.js:23-35 | with no name hit and some URL hit, the removed list is exactly the user's containers whose own router rule is ``Host(`id`)``, in listing order |
| `Resolver.ProjectStrategy` | src/routes/remove.js:37-46 | with no name or URL hit and some project hit, the removed list is exactly the user's containers of project id, in listing order |
| `Resolver.NotFoundIff` | src/routes/remove.js:17-48 | nothing is found exactly when no container is a name, URL or project hit |
| `Resolver.ScenarioByHost` | src/routes/remove.js:24-35 | two replicas of one user behind the same host are both removed by that host; another user's container with the same rule stays |
| `Resolver.ScenarioByName` | src/routes/remove.js:12-20 | the exact name removes only the named replica, though a sibling shares its host and project |
| `Resolver.ScenarioByProject` | src/routes/remove.js:37-46 | without routing rules, the project removes both replicas and not another user's container of that project |
| `Resolver.ScenarioOtherUsersName` | src/routes/remove.js:12-48 | the name of another user's container finds nothing |
| `Resolver.MissingDeploymentLabel` | src/routes/remove.js:27 | without a deployment label, the router key read is `traefik.http.routers.undefined.rule` |
| `RemoveRoute.ReplyOf` | src/routes/remove.js:17-65 | the handler sends no reply of its own exactly when an exclusive plugin ran; every reply it sends is either `204 'removed'` or `404 {error: 'Container or function not found!'}`, and it is the 404 exactly when the resolver found nothing |
| `RemoveRoute.Handle` | src/routes/remove.js:55-84 | the plugins called and the way the request ends are exactly those of `Expected`: function remover first, then plugins with a hook up to the first exclusive one, then the resolver |
| `RemoveRoute.FunctionPrecedence` | src/routes/remove.js:61-65 | when the function remover succeeds, the reply is 204 'removed', no plugin is called and the resolver tears nothing down |
| `RemoveRoute.InvokedInOrder` | src/routes/remove.js:69-75 | only plugins with a `remove` hook are called, in strictly increasing list order; when the resolver runs, every plugin with a hook was called |
| `RemoveRoute.ExclusiveHalts` | src/routes/remove.js:69-80 | the first plugin with a hook and the exclusive flag is the last one called; every earlier plugin with a hook is called; the resolver tears nothing down and the handler sends nothing |
| `RemoveRoute.ExclusiveWithoutRemoveIgnored` | src/routes/remove.js:71-73 | an exclusive plugin without a `remove` hook is not called and is not the claimant, and clearing its exclusive flag leaves the whole run unchanged (the chain goes on past it exactly as if the flag were absent) |
| `RemoveRoute.FallbackIff` | src/routes/remove.js:69-83 | the resolver runs exactly when the function remover failed and no called plugin is exclusive |
| `RemoveRoute.RouteOwnershipIsolation` | src/routes/remove.js:55-84 | on every path, the containers the resolver tears down are in the listing and belong to the requesting user |
| `RemoveRoute.ExclusiveSecondOfFour` | src/routes/remove.js:69-81 | with four plugins that all have a hook and the second exclusive, exactly the first two are called and the resolver does not run |

## Left out

- Docker I/O: the listing is an input sequence (`cs`). `removeContainer` is not
  modelled; a removal is the list of containers selected for it.
- The `exoframe-faas` function remover is a foreign call. Its answer is the
  boolean input `functionRemoved`.
- Plugin internals: a plugin is its name, whether it has a `remove` hook, and
  its `exclusive` flag. Its return value and its side effects on `reply` and
  `docker` are not modelled, and neither is a plugin that throws.
- The reply object is modelled as the value the handler sends (`ReplyOf`), not
  as a mutable Fastify reply. A second send, when a non-exclusive plugin has
  already replied and the resolver replies again, is not modelled.
- RemoveRoute.RouteOwnershipIsolation and Resolver.OwnershipIsolation: they cover
  only the resolver's teardown list (`ResolverTargets`). Removals made by plugins,
  which receive the Docker client, or by the function remover are outside the model.
- Concurrency: the `Promise.all` fan-out over removals and the un-awaited
  call of the resolver at the end of the handler. The model treats a removal
  as one list of targets.
- Fastify route registration, reading `request.user` and `request.params`,
  the logger, and failures or exceptions of any collaborator.
