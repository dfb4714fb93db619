// The provider registry (manager.go). The class updates its two maps as the source does; the
// registry functions say what each locked section makes of them, and the lemmas below hold of every
// registry such sections can build.

module Registry {
  import opened Wrappers
  import opened Text
  import opened Errors
  import opened Sorting

  datatype Registry<P> = Registry(providers: map<string, P>, aliases: map<string, string>) {
    predicate NameExists(name: string) {
      name in providers || name in aliases
    }
  }

  function Empty<P>(): Registry<P> {
    Registry(map[], map[])
  }

  datatype Update<P> = Update(registry: Registry<P>, error: Option<GoError>)

  // Register under the name the provider reported; provider is None for a nil provider.
  function Register<P>(r: Registry<P>, provider: Option<P>, reported: string): Update<P> {
    var name := TrimSpace(reported);
    if provider.None? || name == "" then
      Update(r, Some(NewError(INVALID_CONFIGURATION, "", "register provider", None)))
    else if r.NameExists(name) then
      Update(r, Some(NewError(DUPLICATE_PROVIDER, name, "register provider", None)))
    else
      Update(r.(providers := r.providers[name := provider.value]), None)
  }

  function RegisterAlias<P>(r: Registry<P>, alias: string, canonical: string): Update<P> {
    var (name, target) := (TrimSpace(alias), TrimSpace(canonical));
    if name == "" || target == "" then
      Update(r, Some(NewError(INVALID_CONFIGURATION, target, "register provider alias", None)))
    else if r.NameExists(name) then
      Update(r, Some(NewError(DUPLICATE_PROVIDER, name, "register provider alias", None)))
    else if target !in r.providers then
      Update(r, Some(NewError(PROVIDER_NOT_FOUND, target, "register provider alias", None)))
    else
      Update(r.(aliases := r.aliases[name := target]), None)
  }

  // The provider under a trimmed name: a canonical name first, then an alias.
  function Find<P>(r: Registry<P>, name: string): Option<P> {
    if name in r.providers then Some(r.providers[name])
    else if name in r.aliases && r.aliases[name] in r.providers then Some(r.providers[r.aliases[name]])
    else None
  }

  function Lookup<P>(r: Registry<P>, requested: string): Option<P> {
    Find(r, TrimSpace(requested))
  }

  predicate ProperName(name: string) {
    name != "" && TrimSpace(name) == name
  }

  // Canonical names and aliases are disjoint, and aliases name providers directly.
  ghost predicate Consistent<P>(r: Registry<P>) {
    && r.providers.Keys !! r.aliases.Keys
    && (forall alias :: alias in r.aliases ==> r.aliases[alias] in r.providers)
  }

  // A consistent registry whose names are all trimmed and nonempty.
  ghost predicate WellFormed<P>(r: Registry<P>) {
    && Consistent(r)
    && (forall name :: name in r.providers ==> ProperName(name))
    && (forall alias :: alias in r.aliases ==> ProperName(alias))
  }

  ghost predicate Extends<K, V>(before: map<K, V>, after: map<K, V>) {
    forall k :: k in before ==> k in after && after[k] == before[k]
  }

  // Nothing registered is ever lost or replaced.
  ghost predicate Grown<P>(before: Registry<P>, after: Registry<P>) {
    Extends(before.providers, after.providers) && Extends(before.aliases, after.aliases)
  }

  datatype Change<P> = Provide(provider: Option<P>, reported: string) | Alias(alias: string, canonical: string)

  function Apply<P>(r: Registry<P>, change: Change<P>): Update<P> {
    match change
    case Provide(provider, reported) => Register(r, provider, reported)
    case Alias(alias, canonical) => RegisterAlias(r, alias, canonical)
  }

  function ApplyAll<P>(r: Registry<P>, changes: seq<Change<P>>): Registry<P>
    decreases |changes|
  {
    if changes == [] then r else ApplyAll(Apply(r, changes[0]).registry, changes[1..])
  }

  lemma TrimSpaceIsProper(name: string)
    ensures TrimSpace(name) != "" ==> ProperName(TrimSpace(name))
  {
    TrimSpaceIsTrimmed(name);
  }

  // Neither change breaks consistency or takes anything away. name and target are trimmed already.
  lemma AddingKeepsConsistent<P>(r: Registry<P>, name: string, provider: P, target: string)
    requires Consistent(r) && !r.NameExists(name)
    ensures var s := r.(providers := r.providers[name := provider]); Consistent(s) && Grown(r, s)
    ensures target in r.providers ==> var s := r.(aliases := r.aliases[name := target]); Consistent(s) && Grown(r, s)
  {}

  lemma ApplyKeepsConsistent<P>(r: Registry<P>, change: Change<P>)
    requires Consistent(r)
    ensures Consistent(Apply(r, change).registry) && Grown(r, Apply(r, change).registry)
    ensures Apply(r, change).error.Some? ==> Apply(r, change).registry == r
  {
    match change
    case Provide(provider, reported) =>
      var name := TrimSpace(reported);
      if provider.Some? && name != "" && !r.NameExists(name) {
        AddingKeepsConsistent(r, name, provider.value, "");
      }
    case Alias(alias, canonical) =>
      var (name, target) := (TrimSpace(alias), TrimSpace(canonical));
      if name != "" && target in r.providers && !r.NameExists(name) {
        AddingKeepsConsistent(r, name, r.providers[target], target);
      }
  }

  lemma ApplyKeepsWellFormed<P>(r: Registry<P>, change: Change<P>)
    requires WellFormed(r)
    ensures WellFormed(Apply(r, change).registry) && Grown(r, Apply(r, change).registry)
  {
    ApplyKeepsConsistent(r, change);
    match change
    case Provide(_, reported) => TrimSpaceIsProper(reported);
    case Alias(alias, _) => TrimSpaceIsProper(alias);
  }

  // Once a name resolves, it resolves to the same provider in every later registry: the later one
  // may not shadow an alias with a canonical name.
  lemma FindIsStable<P>(before: Registry<P>, after: Registry<P>, name: string)
    requires Consistent(before) && Consistent(after) && Grown(before, after)
    ensures Find(before, name).Some? ==> Find(after, name) == Find(before, name)
  {
    if name !in before.providers && name in before.aliases {
      assert name in after.aliases;
    }
  }

  lemma {:induction false} RunIsWellFormed<P>(r: Registry<P>, changes: seq<Change<P>>)
    requires WellFormed(r)
    ensures WellFormed(ApplyAll(r, changes)) && Grown(r, ApplyAll(r, changes))
    decreases |changes|
  {
    if changes != [] {
      ApplyKeepsWellFormed(r, changes[0]);
      RunIsWellFormed(Apply(r, changes[0]).registry, changes[1..]);
    }
  }

  // Over every run of registrations from an empty registry: the registry is well formed at every
  // point, and what a name resolves to never changes again.
  lemma ResolutionIsPermanent<P>(earlier: seq<Change<P>>, later: seq<Change<P>>, name: string)
    ensures var r := ApplyAll(Empty(), earlier);
            && WellFormed(r)
            && (Lookup(r, name).Some? ==> Lookup(ApplyAll(r, later), name) == Lookup(r, name))
  {
    RunIsWellFormed(Empty(), earlier);
    var r := ApplyAll(Empty(), earlier);
    RunIsWellFormed(r, later);
    FindIsStable(r, ApplyAll(r, later), TrimSpace(name));
  }

  // --- what a name resolves to ---

  // The name a change adds.
  function AddedName<P>(change: Change<P>): string {
    match change
    case Provide(_, reported) => TrimSpace(reported)
    case Alias(alias, _) => TrimSpace(alias)
  }

  // A registered provider is found under every name that trims to its own, and every other name keeps
  // its meaning.
  lemma ProvidedIsFound<P>(r: Registry<P>, provider: P, reported: string, name: string)
    requires Consistent(r) && Apply(r, Provide(Some(provider), reported)).error.None?
    ensures var after := Apply(r, Provide(Some(provider), reported)).registry;
            if TrimSpace(name) == TrimSpace(reported) then Lookup(after, name) == Some(provider)
            else Lookup(after, name) == Lookup(r, name)
  {
  }

  // An alias finds what its target finds, and every other name keeps its meaning.
  lemma AliasIsFound<P>(r: Registry<P>, alias: string, canonical: string, name: string)
    requires Consistent(r) && Apply(r, Alias(alias, canonical)).error.None?
    ensures var after := Apply(r, Alias(alias, canonical)).registry;
            && Lookup(r, canonical).Some? && Lookup(after, canonical) == Lookup(r, canonical)
            && if TrimSpace(name) == TrimSpace(alias) then Lookup(after, name) == Lookup(after, canonical)
               else Lookup(after, name) == Lookup(r, name)
  {
  }

  // A change succeeds if and only if its names are nonblank, the new one is unused, and an alias names a
  // provider by its canonical name; the first of these that fails decides the error, and nothing changes.
  lemma ChangeSucceeds<P>(r: Registry<P>, change: Change<P>)
    requires Consistent(r)
    ensures var error := Apply(r, change).error;
            var blank := match change
                         case Provide(provider, reported) => provider.None? || TrimSpace(reported) == ""
                         case Alias(alias, canonical) => TrimSpace(alias) == "" || TrimSpace(canonical) == "";
            var used := Lookup(r, AddedName(change)).Some?;
            var dangling := change.Alias? && TrimSpace(change.canonical) !in r.providers;
            && (error.None? <==> !blank && !used && !dangling)
            && (blank ==> error.Some? && IsErrorCode(error.value, INVALID_CONFIGURATION))
            && (!blank && used ==> error.Some? && IsErrorCode(error.value, DUPLICATE_PROVIDER))
            && (!blank && !used && dangling ==> error.Some? && IsErrorCode(error.value, PROVIDER_NOT_FOUND))
            && (error.Some? ==> Apply(r, change).registry == r)
  {
    TrimSpaceIsTrimmed(match change case Provide(_, reported) => reported case Alias(alias, _) => alias);
  }

  // In a run from a registry: the i-th change succeeded.
  predicate Succeeds<P>(r: Registry<P>, changes: seq<Change<P>>, i: nat)
    requires i < |changes|
    decreases i
  {
    if i == 0 then Apply(r, changes[0]).error.None?
    else Succeeds(Apply(r, changes[0]).registry, changes[1..], i - 1)
  }

  predicate AddsName<P>(r: Registry<P>, changes: seq<Change<P>>, i: nat, name: string)
    requires i < |changes|
  {
    Succeeds(r, changes, i) && AddedName(changes[i]) == TrimSpace(name)
  }

  lemma OneChangeAdds<P>(r: Registry<P>, change: Change<P>, name: string)
    requires Consistent(r)
    ensures Lookup(Apply(r, change).registry, name).Some? <==>
              Lookup(r, name).Some? || (Apply(r, change).error.None? && AddedName(change) == TrimSpace(name))
  {
    var applied := Apply(r, change);
    if applied.error.None? {
      match change
      case Provide(provider, reported) => ProvidedIsFound(r, provider.value, reported, name);
      case Alias(alias, canonical) => AliasIsFound(r, alias, canonical, name);
    } else {
      ApplyKeepsConsistent(r, change);
    }
  }

  // In every registry a run reaches, a name finds something if and only if it did so before or an earlier
  // successful change added its trimmed form.
  lemma {:induction false} NamesAreRegistered<P>(r: Registry<P>, changes: seq<Change<P>>, name: string)
    requires Consistent(r)
    ensures Lookup(ApplyAll(r, changes), name).Some? <==>
              Lookup(r, name).Some? || exists i :: 0 <= i < |changes| && AddsName(r, changes, i, name)
    decreases |changes|
  {
    if changes != [] {
      var (next, rest) := (Apply(r, changes[0]).registry, changes[1..]);
      ApplyKeepsConsistent(r, changes[0]);
      OneChangeAdds(r, changes[0], name);
      NamesAreRegistered(next, rest, name);
      if i :| 0 <= i < |rest| && AddsName(next, rest, i, name) {
        assert AddsName(r, changes, i + 1, name);
      }
      if i :| 0 <= i < |changes| && AddsName(r, changes, i, name) {
        assert i > 0 ==> AddsName(next, rest, i - 1, name);
      }
      assert AddsName(r, changes, 0, name) <==> Apply(r, changes[0]).error.None? && AddedName(changes[0]) == TrimSpace(name);
    }
  }

  lemma ReachedNames<P>(changes: seq<Change<P>>, name: string)
    ensures Lookup(ApplyAll(Empty<P>(), changes), name).Some? <==>
              exists i :: 0 <= i < |changes| && AddsName(Empty<P>(), changes, i, name)
  {
    NamesAreRegistered(Empty<P>(), changes, name);
  }

  // Manager; its zero value has two nil maps, which Go reads as empty ones.
  class Manager<P> {
    var providers: map<string, P>
    var aliases: map<string, string>

    constructor ()
      ensures View() == Empty()
    {
      providers, aliases := map[], map[];
    }

    function View(): Registry<P>
      reads this
    {
      Registry(providers, aliases)
    }

    method Register(provider: Option<P>, reported: string) returns (error: Option<GoError>)
      modifies this
      ensures Update(View(), error) == Apply(old(View()), Provide(provider, reported))
    {
      if provider.None? {
        return Some(NewError(INVALID_CONFIGURATION, "", "register provider", None));
      }
      var name := TrimSpace(reported);
      if name == "" {
        return Some(NewError(INVALID_CONFIGURATION, "", "register provider", None));
      }
      if name in providers || name in aliases {
        return Some(NewError(DUPLICATE_PROVIDER, name, "register provider", None));
      }
      providers := providers[name := provider.value];
      error := None;
    }

    method RegisterAlias(alias: string, canonical: string) returns (error: Option<GoError>)
      modifies this
      ensures Update(View(), error) == Apply(old(View()), Alias(alias, canonical))
    {
      var name, target := TrimSpace(alias), TrimSpace(canonical);
      if name == "" || target == "" {
        return Some(NewError(INVALID_CONFIGURATION, target, "register provider alias", None));
      }
      if name in providers || name in aliases {
        return Some(NewError(DUPLICATE_PROVIDER, name, "register provider alias", None));
      }
      if target !in providers {
        return Some(NewError(PROVIDER_NOT_FOUND, target, "register provider alias", None));
      }
      aliases := aliases[name := target];
      error := None;
    }

    method Provider(requested: string) returns (result: Result<P, GoError>)
      ensures match Lookup(View(), requested)
              case Some(provider) => result == Ok(provider)
              case None => result == Err(NewError(PROVIDER_NOT_FOUND, TrimSpace(requested), "retrieve provider", None))
    {
      var name := TrimSpace(requested);
      if name in providers {
        return Ok(providers[name]);
      }
      if name in aliases {
        var canonical := aliases[name];
        if canonical in providers {
          return Ok(providers[canonical]);
        }
      }
      result := Err(NewError(PROVIDER_NOT_FOUND, name, "retrieve provider", None));
    }

    // The canonical names, each once, in strictly ascending byte order, whatever order the map
    // iteration visits them in. AscendingIsUnique says there is only one such list.
    method Names() returns (names: seq<string>)
      ensures StrictlyAscending(names) && Elements(names) == providers.Keys
    {
      names := Ascending(providers.Keys);
    }
  }
}
