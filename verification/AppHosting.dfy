/**
 * Publishing, refreshing, pruning and removing as the server performs them
 * (server/src/lib/lambdaApps.ts), one call after another on a cloud that changes
 * under its hands, with a process that may die before any of them.
 */
module AppHosting {
  import opened Common
  import opened AppBackend

  datatype Failure = BadEnv | NotConfigured | RoleMissing | NotDeployed | VersionMissing | Stopped

  datatype Result<+T> = Ok(value: T) | Err(failure: Failure)

  datatype Published = Published(version: nat, alias: string, url: nat)

  /** What an operation set out to do: its first cloud, its calls, and how many it lives to make. */
  datatype Plan = Plan(start: Cloud, calls: seq<Call>, lives: nat)

  lemma {:induction false} StoppedStays(c: Cloud, tried: seq<Call>, calls: seq<Call>)
    requires tried <= calls && Perform(c, tried).stopped
    ensures Perform(c, calls) == Perform(c, tried)
  {
    if |tried| == |calls| {
      assert tried == calls;
    } else {
      StoppedStays(c, tried, calls[..|calls| - 1]);
    }
  }

  lemma PerformMore(c: Cloud, calls: seq<Call>, call: Call)
    ensures Perform(c, calls + [call]) == Next(Perform(c, calls), call)
  {
    assert (calls + [call])[..|calls|] == calls;
  }

  /** A plan whose process dies ends where it stands. */
  lemma EndsDead(plan: Plan, done: seq<Call>, call: Call)
    requires done + [call] <= plan.calls && |done| == plan.lives
    ensures Cut(plan.start, plan.calls, plan.lives) == Perform(plan.start, done).cloud && plan.lives < |plan.calls|
  {
    assert plan.calls[..|done|] == done;
  }

  /** So does one whose next call is refused. */
  lemma EndsRefused(plan: Plan, done: seq<Call>, call: Call)
    requires done + [call] <= plan.calls && !Perform(plan.start, done).stopped && |done| < plan.lives
    requires Do(Perform(plan.start, done).cloud, call).None?
    ensures Cut(plan.start, plan.calls, plan.lives) == Perform(plan.start, done).cloud
    ensures Perform(plan.start, plan.calls).stopped
  {
    var tried := done + [call];
    PerformMore(plan.start, done, call);
    assert Perform(plan.start, tried) == Progress(Perform(plan.start, done).cloud, true);
    StoppedStays(plan.start, tried, plan.calls);
    if plan.lives < |plan.calls| {
      assert tried <= plan.calls[..plan.lives];
      StoppedStays(plan.start, tried, plan.calls[..plan.lives]);
    }
  }

  class Hosting {
    var cloud: Cloud
    var lives: nat        // calls left before the process dies
    const configured: bool
    const cap: Option<bool>
    const size: string -> nat

    constructor (cloud: Cloud, lives: nat, configured: bool, cap: Option<bool>, size: string -> nat)
      ensures this.cloud == cloud && this.lives == lives && this.configured == configured
      ensures this.cap == cap && this.size == size
    {
      this.cloud, this.lives, this.configured, this.cap, this.size := cloud, lives, configured, cap, size;
    }

    ghost predicate On(plan: Plan, done: seq<Call>)
      reads this
    {
      && done <= plan.calls
      && Perform(plan.start, done) == Progress(cloud, false)
      && lives + |done| == plan.lives
    }

    /** The plan came to an end early: the process died, or AWS refused a call. */
    ghost predicate Failed(plan: Plan)
      reads this
    {
      && cloud == Cut(plan.start, plan.calls, plan.lives)
      && (plan.lives < |plan.calls| || Perform(plan.start, plan.calls).stopped)
    }

    ghost predicate Finished(plan: Plan)
      reads this
    {
      && Perform(plan.start, plan.calls) == Progress(cloud, false)
      && cloud == Cut(plan.start, plan.calls, plan.lives)
    }

    lemma Finish(plan: Plan)
      requires On(plan, plan.calls)
      ensures Finished(plan)
    {
    }

    /** One call: it may find the process dead, or be refused. */
    method Try(call: Call, ghost plan: Plan, ghost done: seq<Call>) returns (ok: bool)
      requires On(plan, done) && done + [call] <= plan.calls
      modifies this
      ensures ok ==> On(plan, done + [call]) && Do(old(cloud), call) == Some(cloud)
      ensures !ok ==> Failed(plan)
    {
      PerformMore(plan.start, done, call);
      if lives == 0 {
        EndsDead(plan, done, call);
        return false;
      }
      var next := Do(cloud, call);
      if next.None? {
        EndsRefused(plan, done, call);
        return false;
      }
      cloud := next.value;
      lives := lives - 1;
      return true;
    }

    /** The role, unless it is there, recorded before it is made. */
    method CreateRoleFirst(ghost plan: Plan) returns (ok: bool)
      requires On(plan, []) && plan.start == cloud && RoleCalls(cloud) <= plan.calls
      modifies this
      ensures if ok then On(plan, RoleCalls(plan.start)) else Failed(plan)
    {
      assert [] + [RecordRole] == [RecordRole];
      ok := Try(RecordRole, plan, []);
      if !ok {
        return;
      }
      if !cloud.role {
        ok := Try(CreateRole, plan, [RecordRole]);
      } else {
        assert RoleCalls(plan.start) == [RecordRole];
      }
    }

    /**
     * The first publish: the role, the log group it may write to, then the function,
     * each recorded before it is made.
     */
    method CreateEverything(s: Snapshot, ghost plan: Plan) returns (ok: bool)
      requires On(plan, []) && plan.start == cloud && CreationCalls(cloud, s, cap) <= plan.calls
      modifies this
      ensures if ok then On(plan, CreationCalls(plan.start, s, cap)) else Failed(plan)
    {
      ghost var roles := RoleCalls(cloud);
      ghost var made := FirstCalls(cloud) + [CreateFn(s)];
      ok := CreateRoleFirst(plan);
      if !ok {
        return;
      }
      ok := Try(CreateLogGroup, plan, roles);
      if !ok {
        return;
      }
      ok := Try(PutPolicy, plan, roles + [CreateLogGroup]);
      if !ok {
        return;
      }
      ok := Try(RecordFn, plan, roles + [CreateLogGroup] + [PutPolicy]);
      if !ok {
        return;
      }
      ok := Try(CreateFn(s), plan, FirstCalls(plan.start));
      if !ok {
        return;
      }
      ok := SetConcurrency(plan, made);
    }

    /** The cap, where one is configured; AWS may refuse it, and the publish goes on. */
    method SetConcurrency(ghost plan: Plan, ghost made: seq<Call>) returns (ok: bool)
      requires On(plan, made) && made + (if cap.Some? then [PutConcurrency(cap.value)] else []) <= plan.calls
      modifies this
      ensures if ok then On(plan, made + if cap.Some? then [PutConcurrency(cap.value)] else []) else Failed(plan)
    {
      if cap.None? {
        assert made + [] == made;
        return true;
      }
      ok := Try(PutConcurrency(cap.value), plan, made);
    }

    method PublishVersion(s: Snapshot, ghost plan: Plan) returns (ok: bool)
      requires On(plan, []) && VersionCalls(s) <= plan.calls
      modifies this
      ensures if ok then On(plan, VersionCalls(s)) else Failed(plan)
    {
      ok := Try(UpdateConfig(s.env), plan, []);
      if !ok {
        return;
      }
      assert [] + [UpdateConfig(s.env)] == [UpdateConfig(s.env)];
      ok := Try(UpdateCode(s.zip), plan, [UpdateConfig(s.env)]);
    }

    method PublishBackend(deployment: string, zip: Zip, env: Env) returns (r: Result<Published>)
      modifies this
      ensures
        var calls := PublishCalls(old(cloud), Snapshot(zip, env), "d-" + deployment, cap);
        var plan := Plan(old(cloud), calls, old(lives));
        if !Settable(env, size) then r == Err(BadEnv) && cloud == old(cloud)
        else if !configured then r == Err(NotConfigured) && cloud == old(cloud)
        else match r
          case Err(Stopped) => Failed(plan)
          case Err(failure) => failure == RoleMissing && Exists(old(cloud)) && !old(cloud).role && cloud == old(cloud)
          case Ok(p) => Finished(plan) && Serves(p, "d-" + deployment)
    {
      if !Settable(env, size) {
        return Err(BadEnv);
      }
      if !configured {
        return Err(NotConfigured);
      }
      var alias, s := AliasName(deployment), Snapshot(zip, env);
      ghost var plan := Plan(cloud, PublishCalls(cloud, s, alias, cap), lives);
      ghost var done: seq<Call>;
      var version: nat;
      var ok: bool;
      if !Exists(cloud) {
        done := CreationCalls(cloud, s, cap);
        assert plan.calls == done + [CreateAlias(alias, 1)] + [CreateUrl(alias)];
        ok := CreateEverything(s, plan);
        version := 1;
      } else if !cloud.role {
        return Err(RoleMissing);
      } else {
        done := VersionCalls(s);
        version := cloud.fn.value.next;
        assert plan.calls == done + [CreateAlias(alias, version)] + [CreateUrl(alias)];
        ok := PublishVersion(s, plan);
      }
      if !ok {
        return Err(Stopped);
      }
      r := Expose(alias, version, plan, done);
    }

    /** The deployment's alias, then the alias's URL. */
    method Expose(alias: string, version: nat, ghost plan: Plan, ghost done: seq<Call>) returns (r: Result<Published>)
      requires On(plan, done) && plan.calls == done + [CreateAlias(alias, version)] + [CreateUrl(alias)]
      modifies this
      ensures match r
        case Ok(p) => Finished(plan) && Serves(p, alias)
        case Err(failure) => failure == Stopped && Failed(plan)
    {
      var ok := Try(CreateAlias(alias, version), plan, done);
      if !ok {
        return Err(Stopped);
      }
      var url := cloud.fn.value.nextUrl;
      ok := Try(CreateUrl(alias), plan, done + [CreateAlias(alias, version)]);
      if !ok {
        return Err(Stopped);
      }
      Finish(plan);
      return Ok(Published(version, alias, url));
    }

    predicate Serves(p: Published, alias: string)
      reads this
    {
      && p.alias == alias && cloud.fn.Some?
      && alias in cloud.fn.value.aliases && cloud.fn.value.aliases[alias] == p.version
      && alias in cloud.fn.value.urls && cloud.fn.value.urls[alias] == p.url
    }

    method RefreshBackendEnv(deployment: string, env: Env) returns (r: Result<nat>)
      modifies this
      ensures
        var alias := "d-" + deployment;
        var plan := Plan(old(cloud), RefreshCalls(old(cloud), alias, env), old(lives));
        if !Settable(env, size) then r == Err(BadEnv) && cloud == old(cloud)
        else if !configured then r == Err(NotConfigured) && cloud == old(cloud)
        else if old(cloud.fn.None? || alias !in cloud.fn.value.aliases) then
          r == Err(NotDeployed) && cloud == old(cloud)
        else if !old(cloud.role) then r == Err(RoleMissing) && cloud == old(cloud)
        else if old(cloud.fn.value.aliases[alias] !in cloud.fn.value.versions) then
          r == Err(VersionMissing) && cloud == old(cloud)
        else match r
          case Err(failure) => failure == Stopped && Failed(plan)
          case Ok(version) => Finished(plan) && cloud.fn.Some? && alias in cloud.fn.value.aliases
                              && cloud.fn.value.aliases[alias] == version
    {
      if !Settable(env, size) {
        return Err(BadEnv);
      }
      if !configured {
        return Err(NotConfigured);
      }
      var alias := AliasName(deployment);
      if cloud.fn.None? || alias !in cloud.fn.value.aliases {
        return Err(NotDeployed);
      }
      if !cloud.role {
        return Err(RoleMissing);
      }
      if cloud.fn.value.aliases[alias] !in cloud.fn.value.versions {
        return Err(VersionMissing);
      }
      ghost var plan := Plan(cloud, RefreshCalls(cloud, alias, env), lives);
      var current := cloud.fn.value.aliases[alias];
      var s, version := Snapshot(cloud.fn.value.versions[current].zip, env), cloud.fn.value.next;
      assert plan.calls == VersionCalls(s) + [UpdateAlias(alias, version)];
      var ok := PublishVersion(s, plan);
      if !ok {
        return Err(Stopped);
      }
      ok := Try(UpdateAlias(alias, version), plan, VersionCalls(s));
      if !ok {
        return Err(Stopped);
      }
      Finish(plan);
      return Ok(version);
    }

    // ---- Pruning and removing ----

    /** The function's aliases, in the order they happen to come. */
    method ListAliases() returns (names: seq<string>)
      ensures cloud.fn.None? ==> names == []
      ensures cloud.fn.Some? ==> Names(names) == cloud.fn.value.aliases.Keys
    {
      names := [];
      if cloud.fn.None? {
        return;
      }
      var left := cloud.fn.value.aliases.Keys;
      while left != {}
        invariant left <= cloud.fn.value.aliases.Keys
        invariant Names(names) == cloud.fn.value.aliases.Keys - left
        decreases |left|
      {
        var a :| a in left;
        assert Names(names + [a]) == Names(names) + {a};
        names, left := names + [a], left - {a};
      }
    }

    method ListVersions() returns (versions: seq<nat>)
      requires cloud.fn.Some?
      ensures Numbers(versions) == cloud.fn.value.versions.Keys
    {
      versions := [];
      var left := cloud.fn.value.versions.Keys;
      while left != {}
        invariant left <= cloud.fn.value.versions.Keys
        invariant Numbers(versions) == cloud.fn.value.versions.Keys - left
        decreases |left|
      {
        var v :| v in left;
        assert Numbers(versions + [v]) == Numbers(versions) + {v};
        versions, left := versions + [v], left - {v};
      }
    }

    /** Deletes an alias's URL, then the alias. */
    method DropOne(a: string, ghost plan: Plan, ghost done: seq<Call>) returns (ok: bool)
      requires On(plan, done) && done + [DeleteUrl(a)] + [DeleteAlias(a)] <= plan.calls
      modifies this
      ensures if ok then On(plan, done + [DeleteUrl(a)] + [DeleteAlias(a)]) else Failed(plan)
    {
      ok := Try(DeleteUrl(a), plan, done);
      if ok {
        ok := Try(DeleteAlias(a), plan, done + [DeleteUrl(a)]);
      }
    }

    method DropAll(names: seq<string>, ghost plan: Plan) returns (ok: bool)
      requires On(plan, []) && DropAliases(names) <= plan.calls
      modifies this
      ensures if ok then On(plan, DropAliases(names)) else Failed(plan)
    {
      var i := 0;
      while i < |names|
        invariant 0 <= i <= |names| && On(plan, DropAliases(names[..i]))
      {
        ghost var done := DropAliases(names[..i]);
        assert names[..i + 1] == names[..i] + [names[i]];
        DropOneMore(names[..i], names[i]);
        DropAliasesPrefix(names, i + 1);
        ok := DropOne(names[i], plan, done);
        if !ok {
          return;
        }
        i := i + 1;
      }
      assert names[..i] == names;
      ok := true;
    }

    /** Drops one listed alias, unless a deployment to keep has it. */
    method DropUnlessKept(names: seq<string>, i: nat, keep: set<string>, ghost plan: Plan) returns (ok: bool)
      requires i < |names| && On(plan, DropAliases(Unkept(names[..i], keep)))
      requires DropAliases(Unkept(names, keep)) <= plan.calls
      modifies this
      ensures if ok then On(plan, DropAliases(Unkept(names[..i + 1], keep))) else Failed(plan)
    {
      var a := names[i];
      NextDropped(names, i, keep);
      if IsKept(a, keep) {
        return true;
      }
      ok := DropOne(a, plan, DropAliases(Unkept(names[..i], keep)));
    }

    /** What the loop over the aliases has counted after the first `i` of them. */
    ghost predicate Counted(c: Cloud, names: seq<string>, keep: set<string>, i: nat, removed: nat, inUse: set<nat>) {
      i <= |names| && removed == |Unkept(names[..i], keep)| && inUse == InUse(c, names[..i], keep)
    }

    lemma CountedMore(c: Cloud, names: seq<string>, keep: set<string>, i: nat, removed: nat, inUse: set<nat>)
      requires c.fn.Some? && Names(names) == c.fn.value.aliases.Keys && i < |names|
      requires Counted(c, names, keep, i, removed, inUse)
      ensures names[i] in c.fn.value.aliases
      ensures IsKept(names[i], keep) ==>
        Counted(c, names, keep, i + 1, removed, inUse + {c.fn.value.aliases[names[i]]})
      ensures !IsKept(names[i], keep) ==> Counted(c, names, keep, i + 1, removed + 1, inUse)
    {
      assert names[i] in Names(names);
      assert names[..i + 1] == names[..i] + [names[i]];
      InUseMore(c, names[..i], names[i], keep);
      UnkeptMore(names[..i], names[i], keep);
    }

    /** Drops the listed aliases outside `keep`, and collects the versions the others are on. */
    method DropUnkept(names: seq<string>, keep: set<string>, ghost plan: Plan)
      returns (ok: bool, removed: nat, inUse: set<nat>)
      requires On(plan, []) && plan.start == cloud && cloud.fn.Some? && Names(names) == cloud.fn.value.aliases.Keys
      requires DropAliases(Unkept(names, keep)) <= plan.calls
      modifies this
      ensures if ok then On(plan, DropAliases(Unkept(names, keep))) else Failed(plan)
      ensures ok ==> removed == |Unkept(names, keep)| && inUse == InUse(old(cloud), names, keep)
    {
      ghost var before := cloud;
      var versionOf := cloud.fn.value.aliases;
      removed, inUse := 0, {};
      var i := 0;
      while i < |names|
        invariant 0 <= i && Counted(before, names, keep, i, removed, inUse)
        invariant On(plan, DropAliases(Unkept(names[..i], keep)))
      {
        CountedMore(before, names, keep, i, removed, inUse);
        ok := DropUnlessKept(names, i, keep, plan);
        if !ok {
          return;
        }
        if IsKept(names[i], keep) {
          inUse := inUse + {versionOf[names[i]]};
        } else {
          removed := removed + 1;
        }
        i := i + 1;
      }
      assert names[..i] == names;
      ok := true;
    }

    /** Drops one listed version, unless a kept alias is on it. */
    method DropUnlessUsed(versions: seq<nat>, i: nat, inUse: set<nat>, ghost plan: Plan, ghost first: seq<Call>)
      returns (ok: bool)
      requires i < |versions| && On(plan, first + DropVersions(versions[..i], inUse))
      requires plan.calls == first + DropVersions(versions, inUse)
      modifies this
      ensures if ok then On(plan, first + DropVersions(versions[..i + 1], inUse)) else Failed(plan)
    {
      NextVersion(first, versions, i, inUse);
      if versions[i] in inUse {
        return true;
      }
      ok := Try(DeleteVersion(versions[i]), plan, first + DropVersions(versions[..i], inUse));
    }

    method DropUnused(versions: seq<nat>, inUse: set<nat>, ghost plan: Plan, ghost first: seq<Call>)
      returns (ok: bool, removed: nat)
      requires On(plan, first) && plan.calls == first + DropVersions(versions, inUse)
      modifies this
      ensures if ok then On(plan, plan.calls) && removed == |DropVersions(versions, inUse)| else Failed(plan)
    {
      removed := 0;
      var i := 0;
      assert first + [] == first;
      while i < |versions|
        invariant 0 <= i <= |versions| && On(plan, first + DropVersions(versions[..i], inUse))
        invariant removed == |DropVersions(versions[..i], inUse)|
      {
        ok := DropUnlessUsed(versions, i, inUse, plan, first);
        if !ok {
          return;
        }
        NextVersion(first, versions, i, inUse);
        if versions[i] !in inUse {
          removed := removed + 1;
        }
        i := i + 1;
      }
      assert versions[..i] == versions;
      ok := true;
    }

    /**
     * Throws away what no deployment can be rolled back to any more; `names` and
     * `listed` are the listings it worked from.
     */
    method PruneBackend(keep: set<string>)
      returns (ok: bool, aliases: nat, versions: nat, ghost names: seq<string>, ghost listed: seq<nat>)
      modifies this
      ensures !configured || old(cloud).fn.None? ==> ok && aliases == versions == 0 && cloud == old(cloud)
      ensures configured && old(cloud).fn.Some? ==>
        var plan := Plan(old(cloud), PruneCalls(old(cloud), keep, names, listed), old(lives));
        && Names(names) == old(cloud).fn.value.aliases.Keys
        && (if ok then
              && Finished(plan) && Numbers(listed) == old(cloud).fn.value.versions.Keys
              && aliases == |Unkept(names, keep)| && aliases * 2 + versions == |plan.calls|
            else Failed(plan))
    {
      aliases, versions, names, listed := 0, 0, [], [];
      if !configured || cloud.fn.None? {
        return true, 0, 0, [], [];
      }
      var found := ListAliases();
      names := found;
      ghost var first := DropAliases(Unkept(names, keep));
      ghost var plan := Plan(cloud, first, lives);
      var inUse: set<nat>;
      ok, aliases, inUse := DropUnkept(found, keep, plan);
      if !ok {
        FailedEarly(plan, DropVersions(listed, InUse(plan.start, names, keep)));
        return;
      }
      DroppingKeepsVersions(plan.start, Unkept(names, keep));
      DropAliasesCount(Unkept(names, keep));
      var all := ListVersions();
      listed := all;
      plan := Plan(plan.start, first + DropVersions(listed, inUse), plan.lives);
      ok, versions := DropUnused(all, inUse, plan, first);
      if ok {
        Finish(plan);
      }
    }

    lemma FailedEarly(plan: Plan, more: seq<Call>)
      requires Failed(plan)
      ensures Failed(Plan(plan.start, plan.calls + more, plan.lives))
    {
      var calls := plan.calls + more;
      if plan.lives < |plan.calls| {
        assert calls[..plan.lives] == plan.calls[..plan.lives];
      } else {
        StoppedStays(plan.start, plan.calls, calls);
        if plan.lives < |calls| {
          StoppedStays(plan.start, plan.calls, calls[..plan.lives]);
        }
      }
    }

    /** Everything the project has in AWS, the function first and the rows once their resources are gone. */
    method RemoveBackend() returns (ok: bool, ghost names: seq<string>)
      modifies this
      ensures !configured ==> ok && cloud == old(cloud)
      ensures configured ==> var plan := Plan(old(cloud), RemoveCalls(names), old(lives));
        if ok then Finished(plan) else Failed(plan)
    {
      if !configured {
        return true, [];
      }
      var listed := ListAliases();
      names := listed;
      ghost var plan := Plan(cloud, RemoveCalls(names), lives);
      ghost var p := DropAliases(names);
      ok := DropAll(listed, plan);
      if !ok {
        return;
      }
      ok := Try(DeleteFn, plan, p);
      if !ok {
        return;
      }
      ok := Try(MarkFnDeleted, plan, p + [DeleteFn]);
      if !ok {
        return;
      }
      p := p + [DeleteFn] + [MarkFnDeleted];
      ok := Try(DeleteLogGroup, plan, p);
      if !ok {
        return;
      }
      ok := Try(DeletePolicy, plan, p + [DeleteLogGroup]);
      if !ok {
        return;
      }
      ok := Try(DeleteRole, plan, p + [DeleteLogGroup] + [DeletePolicy]);
      if !ok {
        return;
      }
      ok := Try(MarkRoleDeleted, plan, p + [DeleteLogGroup] + [DeletePolicy] + [DeleteRole]);
      if !ok {
        return;
      }
      Finish(plan);
    }
  }

  lemma {:induction false} DropAliasesPrefix(names: seq<string>, i: nat)
    requires i <= |names|
    ensures DropAliases(names[..i]) <= DropAliases(names)
  {
    if i < |names| {
      assert names[..|names| - 1][..i] == names[..i];
      DropAliasesPrefix(names[..|names| - 1], i);
    } else {
      assert names[..i] == names;
    }
  }

  lemma DropOneMore(names: seq<string>, a: string)
    ensures DropAliases(names + [a]) == DropAliases(names) + [DeleteUrl(a)] + [DeleteAlias(a)]
  {
    assert (names + [a])[..|names|] == names;
  }

  lemma UnkeptMore(names: seq<string>, a: string, keep: set<string>)
    ensures Unkept(names + [a], keep) == if IsKept(a, keep) then Unkept(names, keep) else Unkept(names, keep) + [a]
  {
    assert (names + [a])[..|names|] == names;
  }

  lemma {:induction false} UnkeptPrefix(names: seq<string>, keep: set<string>, i: nat)
    requires i <= |names|
    ensures Unkept(names[..i], keep) <= Unkept(names, keep)
  {
    if i < |names| {
      assert names[..|names| - 1][..i] == names[..i];
      UnkeptPrefix(names[..|names| - 1], keep, i);
    } else {
      assert names[..i] == names;
    }
  }

  lemma DropUnkeptPrefix(names: seq<string>, keep: set<string>, i: nat)
    requires i <= |names|
    ensures DropAliases(Unkept(names[..i], keep)) <= DropAliases(Unkept(names, keep))
  {
    UnkeptPrefix(names, keep, i);
    var some, all := Unkept(names[..i], keep), Unkept(names, keep);
    assert all[..|some|] == some;
    DropAliasesPrefix(all, |some|);
  }

  lemma {:induction false} DropVersionsPrefix(versions: seq<nat>, inUse: set<nat>, i: nat)
    requires i <= |versions|
    ensures DropVersions(versions[..i], inUse) <= DropVersions(versions, inUse)
  {
    if i < |versions| {
      assert versions[..|versions| - 1][..i] == versions[..i];
      DropVersionsPrefix(versions[..|versions| - 1], inUse, i);
    } else {
      assert versions[..i] == versions;
    }
  }

  lemma InUseMore(c: Cloud, names: seq<string>, a: string, keep: set<string>)
    requires c.fn.Some? && a in c.fn.value.aliases
    ensures InUse(c, names + [a], keep)
         == InUse(c, names, keep) + if IsKept(a, keep) then {c.fn.value.aliases[a]} else {}
  {
    var more := InUse(c, names + [a], keep);
    forall v ensures v in more <==> v in InUse(c, names, keep) || (IsKept(a, keep) && v == c.fn.value.aliases[a]) {
      if IsKept(a, keep) && v == c.fn.value.aliases[a] {
        assert a in names + [a];
      }
      if v in InUse(c, names, keep) {
        var b :| b in names && b in c.fn.value.aliases && IsKept(b, keep) && c.fn.value.aliases[b] == v;
        assert b in names + [a];
      }
    }
  }

  lemma {:induction false} DropAliasesCount(names: seq<string>)
    ensures |DropAliases(names)| == 2 * |names|
  {
    if names != [] {
      DropAliasesCount(names[..|names| - 1]);
    }
  }

  predicate SameVersions(c: Cloud, d: Cloud) {
    c.fn.Some? && d.fn.Some? && d.fn.value.versions == c.fn.value.versions
  }

  lemma DeletionKeepsVersions(c: Cloud, p: Progress, call: Call)
    requires SameVersions(c, p.cloud) && (call.DeleteUrl? || call.DeleteAlias?)
    ensures SameVersions(c, Next(p, call).cloud)
  {
  }

  lemma {:induction false} DroppingKeepsVersions(c: Cloud, names: seq<string>)
    requires c.fn.Some?
    ensures SameVersions(c, Perform(c, DropAliases(names)).cloud)
  {
    if names != [] {
      var calls, a := DropAliases(names[..|names| - 1]), names[|names| - 1];
      DroppingKeepsVersions(c, names[..|names| - 1]);
      PerformMore(c, calls, DeleteUrl(a));
      DeletionKeepsVersions(c, Perform(c, calls), DeleteUrl(a));
      PerformMore(c, calls + [DeleteUrl(a)], DeleteAlias(a));
      DeletionKeepsVersions(c, Perform(c, calls + [DeleteUrl(a)]), DeleteAlias(a));
    }
  }

  /** What one more listed alias adds: nothing when it is kept, or two calls. */
  lemma NextDropped(names: seq<string>, i: nat, keep: set<string>)
    requires i < |names|
    ensures var a, done, more := names[i], Unkept(names[..i], keep), Unkept(names[..i + 1], keep);
      && DropAliases(more) <= DropAliases(Unkept(names, keep))
      && DropAliases(more)
           == if IsKept(a, keep) then DropAliases(done) else DropAliases(done) + [DeleteUrl(a)] + [DeleteAlias(a)]
  {
    assert names[..i + 1] == names[..i] + [names[i]];
    UnkeptMore(names[..i], names[i], keep);
    DropOneMore(Unkept(names[..i], keep), names[i]);
    DropUnkeptPrefix(names, keep, i + 1);
  }

  /** What one more listed version adds: a call, unless it is in use. */
  lemma NextVersion(first: seq<Call>, versions: seq<nat>, i: nat, inUse: set<nat>)
    requires i < |versions|
    ensures var done, more := DropVersions(versions[..i], inUse), DropVersions(versions[..i + 1], inUse);
      && more == (if versions[i] in inUse then done else done + [DeleteVersion(versions[i])])
      && first + more <= first + DropVersions(versions, inUse)
      && (versions[i] !in inUse ==> first + more == first + done + [DeleteVersion(versions[i])])
  {
    assert versions[..i + 1][..i] == versions[..i];
    DropVersionsPrefix(versions, inUse, i + 1);
  }
}
