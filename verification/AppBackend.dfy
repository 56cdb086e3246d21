/**
 * A published app's backend on Lambda (server/src/lib/lambdaApps.ts): the role,
 * log group and function of one project, the resource rows that remember them, and
 * the calls each operation makes, any of which may be the last one made.
 */
module AppBackend {
  import opened Common

  type Zip = seq<bv8>
  datatype Var = Var(name: string, value: string)
  type Env = seq<Var>

  const RESERVED_ENV := {"_HANDLER", "_X_AMZN_TRACE_ID", "LAMBDA_RUNTIME_DIR", "LAMBDA_TASK_ROOT", "TZ_OVERRIDE"}
  const ENV_LIMIT_BYTES := 4096

  /** The bytes of all names and values, under a given encoding. */
  function EnvSize(env: Env, size: string -> nat): nat {
    if env == [] then 0 else size(env[0].name) + size(env[0].value) + EnvSize(env[1..], size)
  }

  predicate NamesAreFree(env: Env) {
    forall i :: 0 <= i < |env| ==> !("AWS_" <= env[i].name) && env[i].name !in RESERVED_ENV
  }

  predicate Settable(env: Env, size: string -> nat) {
    && NamesAreFree(env)
    && EnvSize(env, size) <= ENV_LIMIT_BYTES
  }

  function AliasName(deployment: string): string {
    "d-" + deployment
  }

  lemma {:induction false} SizeAdds(env: Env, v: Var, size: string -> nat)
    ensures EnvSize(env + [v], size) == EnvSize(env, size) + size(v.name) + size(v.value)
  {
    if env != [] {
      assert (env + [v])[1..] == env[1..] + [v];
      SizeAdds(env[1..], v, size);
    }
  }

  lemma OneNameMore(env: Env, v: Var)
    ensures NamesAreFree(env + [v]) <==> NamesAreFree(env) && !("AWS_" <= v.name) && v.name !in RESERVED_ENV
  {
    var all := env + [v];
    assert all[|env|] == v && forall i :: 0 <= i < |env| ==> all[i] == env[i];
  }

  /** A variable more can be set with the others exactly when Lambda does not keep its name and 4 KB hold them all. */
  lemma SettableMore(env: Env, v: Var, size: string -> nat)
    ensures Settable([], size) && EnvSize([], size) == 0
    ensures Settable(env + [v], size) <==>
      && Settable(env, size) && !("AWS_" <= v.name)
      && v.name != "_HANDLER" && v.name != "_X_AMZN_TRACE_ID" && v.name != "LAMBDA_RUNTIME_DIR"
      && v.name != "LAMBDA_TASK_ROOT" && v.name != "TZ_OVERRIDE"
      && EnvSize(env, size) + size(v.name) + size(v.value) <= 4096
  {
    SizeAdds(env, v, size);
    OneNameMore(env, v);
  }

  /** Code and environment as a version freezes them. */
  datatype Snapshot = Snapshot(zip: Zip, env: Env)

  datatype Fn = Fn(latest: Snapshot, versions: map<nat, Snapshot>, next: nat, aliases: map<string, nat>,
                   urls: map<string, nat>, nextUrl: nat, capped: bool)

  /** One project in AWS, and whether its role and function rows are live. */
  datatype Cloud = Cloud(role: bool, policy: bool, logGroup: bool, fn: Option<Fn>, roleRow: bool, fnRow: bool)

  const NOTHING := Cloud(false, false, false, None, false, false)

  datatype Call =
    | RecordRole | CreateRole | CreateLogGroup | PutPolicy | RecordFn
    | CreateFn(first: Snapshot) | PutConcurrency(accepted: bool)
    | UpdateConfig(env: Env) | UpdateCode(zip: Zip)
    | CreateAlias(alias: string, version: nat) | CreateUrl(alias: string) | UpdateAlias(alias: string, version: nat)
    | DeleteUrl(alias: string) | DeleteAlias(alias: string) | DeleteVersion(version: nat) | DeleteFn | MarkFnDeleted
    | DeleteLogGroup | DeletePolicy | DeleteRole | MarkRoleDeleted

  /** A call's effect, or None where it is refused. Deleting what is not there is no error. */
  function Do(c: Cloud, call: Call): Option<Cloud> {
    match call
    case RecordRole => Some(c.(roleRow := true))
    case CreateRole => if c.role then None else Some(c.(role := true, policy := false))
    case CreateLogGroup => Some(c.(logGroup := true))
    case PutPolicy => if c.role then Some(c.(policy := true)) else None
    case RecordFn => Some(c.(fnRow := true))
    case CreateFn(s) =>
      if c.fn.Some? || !c.role then None else Some(c.(fn := Some(Fn(s, map[1 := s], 2, map[], map[], 0, false))))
    case DeleteFn => Some(c.(fn := None))
    case MarkFnDeleted => Some(c.(fnRow := false))
    case DeleteLogGroup => Some(c.(logGroup := false))
    case DeletePolicy => Some(c.(policy := false))
    case DeleteRole => if c.policy then None else Some(c.(role := false))
    case MarkRoleDeleted => Some(c.(roleRow := false))
    case _ =>
      if c.fn.None? then (if Deletes(call) then Some(c) else None)
      else
        var f := DoFn(c.fn.value, call);
        if f.None? then None else Some(c.(fn := f))
  }

  predicate Deletes(call: Call) {
    call.DeleteUrl? || call.DeleteAlias? || call.DeleteVersion?
  }

  /** The calls that act on an existing function. */
  function DoFn(f: Fn, call: Call): Option<Fn> {
    match call
    case PutConcurrency(accepted) => Some(f.(capped := accepted))
    case UpdateConfig(env) => Some(f.(latest := f.latest.(env := env)))
    case UpdateCode(zip) =>
      var s := f.latest.(zip := zip);
      Some(f.(latest := s, versions := f.versions[f.next := s], next := f.next + 1))
    case CreateAlias(a, v) =>
      if a in f.aliases || v !in f.versions then None else Some(f.(aliases := f.aliases[a := v]))
    case CreateUrl(a) =>
      if a !in f.aliases || a in f.urls then None
      else Some(f.(urls := f.urls[a := f.nextUrl], nextUrl := f.nextUrl + 1))
    case UpdateAlias(a, v) =>
      if a !in f.aliases || v !in f.versions then None else Some(f.(aliases := f.aliases[a := v]))
    case DeleteUrl(a) => Some(f.(urls := f.urls - {a}))
    case DeleteAlias(a) => Some(f.(aliases := f.aliases - {a}))
    case DeleteVersion(v) =>
      if v in f.aliases.Values then None else Some(f.(versions := f.versions - {v}))
    case _ => Some(f)
  }

  /** A run in progress: the cloud, and whether a refused call has stopped it. */
  datatype Progress = Progress(cloud: Cloud, stopped: bool)

  function Next(p: Progress, call: Call): Progress {
    if p.stopped then p
    else if Do(p.cloud, call).None? then p.(stopped := true)
    else Progress(Do(p.cloud, call).value, false)
  }

  function Perform(c: Cloud, calls: seq<Call>): Progress {
    if calls == [] then Progress(c, false) else Next(Perform(c, calls[..|calls| - 1]), calls[|calls| - 1])
  }

  // ---- The operations, as the calls they make from a given state ----

  predicate Exists(c: Cloud) {
    c.fnRow && c.fn.Some?
  }

  function RoleCalls(c: Cloud): seq<Call> {
    [RecordRole] + if c.role then [] else [CreateRole]
  }

  function FirstCalls(c: Cloud): seq<Call> {
    RoleCalls(c) + [CreateLogGroup] + [PutPolicy] + [RecordFn]
  }

  /** `cap` is what AWS answers to the concurrency limit, None where none is configured. */
  function CreationCalls(c: Cloud, s: Snapshot, cap: Option<bool>): seq<Call> {
    FirstCalls(c) + [CreateFn(s)] + if cap.Some? then [PutConcurrency(cap.value)] else []
  }

  /** Configuration first, so that the version carries the current environment. */
  function VersionCalls(s: Snapshot): seq<Call> {
    [UpdateConfig(s.env)] + [UpdateCode(s.zip)]
  }

  function FirstPublish(c: Cloud, s: Snapshot, alias: string, cap: Option<bool>): seq<Call> {
    CreationCalls(c, s, cap) + [CreateAlias(alias, 1)] + [CreateUrl(alias)]
  }

  function LaterPublish(f: Fn, s: Snapshot, alias: string): seq<Call> {
    VersionCalls(s) + [CreateAlias(alias, f.next)] + [CreateUrl(alias)]
  }

  function PublishCalls(c: Cloud, s: Snapshot, alias: string, cap: Option<bool>): seq<Call> {
    if !Exists(c) then FirstPublish(c, s, alias, cap)
    else if !c.role then []
    else LaterPublish(c.fn.value, s, alias)
  }

  function RefreshCalls(c: Cloud, alias: string, env: Env): seq<Call> {
    if c.fn.None? || alias !in c.fn.value.aliases || !c.role then []
    else if c.fn.value.aliases[alias] !in c.fn.value.versions then []
    else
      var f := c.fn.value;
      VersionCalls(Snapshot(f.versions[f.aliases[alias]].zip, env)) + [UpdateAlias(alias, f.next)]
  }

  predicate IsKept(alias: string, keep: set<string>) {
    !("d-" <= alias) || exists id :: id in keep && AliasName(id) == alias
  }

  function Unkept(names: seq<string>, keep: set<string>): seq<string> {
    if names == [] then []
    else
      var a := names[|names| - 1];
      Unkept(names[..|names| - 1], keep) + if IsKept(a, keep) then [] else [a]
  }

  /** Each alias's URL, then the alias. */
  function DropAliases(names: seq<string>): seq<Call> {
    if names == [] then []
    else DropAliases(names[..|names| - 1]) + [DeleteUrl(names[|names| - 1])] + [DeleteAlias(names[|names| - 1])]
  }

  function DropVersions(versions: seq<nat>, inUse: set<nat>): seq<Call> {
    if versions == [] then []
    else
      var v := versions[|versions| - 1];
      DropVersions(versions[..|versions| - 1], inUse) + if v in inUse then [] else [DeleteVersion(v)]
  }

  function InUse(c: Cloud, names: seq<string>, keep: set<string>): set<nat> {
    if c.fn.None? then {}
    else set a | a in names && a in c.fn.value.aliases && IsKept(a, keep) :: c.fn.value.aliases[a]
  }

  /** `names` and `versions` are what the two listings answered. */
  function PruneCalls(c: Cloud, keep: set<string>, names: seq<string>, versions: seq<nat>): seq<Call> {
    DropAliases(Unkept(names, keep)) + DropVersions(versions, InUse(c, names, keep))
  }

  function RemoveCalls(names: seq<string>): seq<Call> {
    DropAliases(names) + [DeleteFn] + [MarkFnDeleted] + [DeleteLogGroup] + [DeletePolicy] + [DeleteRole]
      + [MarkRoleDeleted]
  }

  datatype Run =
    | Publish(snapshot: Snapshot, alias: string, cap: Option<bool>)
    | Refresh(alias: string, env: Env)
    | Prune(keep: set<string>, names: seq<string>, versions: seq<nat>)
    | Remove(names: seq<string>)

  function Calls(c: Cloud, run: Run): seq<Call> {
    match run
    case Publish(s, alias, cap) => PublishCalls(c, s, alias, cap)
    case Refresh(alias, env) => RefreshCalls(c, alias, env)
    case Prune(keep, names, versions) => PruneCalls(c, keep, names, versions)
    case Remove(names) => RemoveCalls(names)
  }

  /** The cloud after the first `cut` of some calls, or all of them if there are no more. */
  function Cut(c: Cloud, calls: seq<Call>, cut: nat): Cloud {
    Perform(c, if cut < |calls| then calls[..cut] else calls).cloud
  }

  function After(c: Cloud, run: Run, cut: nat): Cloud {
    Cut(c, Calls(c, run), cut)
  }

  datatype CutRun = CutRun(run: Run, cut: nat)

  /** The cloud after some operations, each cut off somewhere. */
  function Onward(c: Cloud, runs: seq<CutRun>): Cloud {
    if runs == [] then c
    else After(Onward(c, runs[..|runs| - 1]), runs[|runs| - 1].run, runs[|runs| - 1].cut)
  }

  function History(runs: seq<CutRun>): Cloud {
    Onward(NOTHING, runs)
  }

  // ---- What holds at every crash point ----

  /** Aliases point at versions that exist, URLs belong to aliases, version numbers are not reused. */
  predicate FnSafe(f: Fn) {
    && (forall a :: a in f.aliases ==> f.aliases[a] in f.versions)
    && f.urls.Keys <= f.aliases.Keys
    && (forall v :: v in f.versions ==> v < f.next)
  }

  predicate Safe(c: Cloud) {
    && (c.fn.Some? ==> c.role && c.policy && c.logGroup && c.fnRow && FnSafe(c.fn.value))
    && (c.role || c.logGroup ==> c.roleRow)
    && (c.policy ==> c.role)
  }

  /** When a call may be made: what the order of the calls sees to. */
  predicate Allowed(c: Cloud, call: Call) {
    match call
    case CreateRole => c.roleRow
    case CreateLogGroup => c.roleRow
    case CreateFn(_) => c.policy && c.logGroup && c.fnRow
    case DeleteAlias(a) => c.fn.Some? ==> a !in c.fn.value.urls
    case MarkFnDeleted => c.fn.None?
    case DeleteLogGroup => c.fn.None?
    case DeletePolicy => c.fn.None?
    case DeleteRole => c.fn.None?
    case MarkRoleDeleted => !c.role && !c.logGroup
    case _ => true
  }

  lemma CallKeepsFnSafe(f: Fn, call: Call)
    requires FnSafe(f) && (call.DeleteAlias? ==> call.alias !in f.urls) && DoFn(f, call).Some?
    ensures FnSafe(DoFn(f, call).value)
  {
    if call.DeleteVersion? {
      var g := DoFn(f, call).value;
      forall a | a in g.aliases ensures g.aliases[a] in g.versions {
        assert f.aliases[a] in f.aliases.Values;
      }
    }
  }

  lemma CallKeepsSafe(c: Cloud, call: Call)
    requires Safe(c) && Allowed(c, call) && Do(c, call).Some?
    ensures Safe(Do(c, call).value)
  {
    if c.fn.Some? && DoFn(c.fn.value, call).Some? {
      if call.DeleteAlias? ==> call.alias !in c.fn.value.urls {
        CallKeepsFnSafe(c.fn.value, call);
      }
    }
  }

  ghost predicate Survives(c: Cloud, calls: seq<Call>) {
    forall k :: 0 <= k <= |calls| ==> Safe(Perform(c, calls[..k]).cloud)
  }

  /** One more call, made where it is allowed, leaves no unsafe crash point. */
  lemma SurvivesMore(c: Cloud, calls: seq<Call>, call: Call)
    requires Survives(c, calls)
    requires !Perform(c, calls).stopped ==> Allowed(Perform(c, calls).cloud, call)
    ensures Survives(c, calls + [call])
    ensures Perform(c, calls + [call]) == Next(Perform(c, calls), call)
  {
    var more := calls + [call];
    assert more[..|calls|] == calls && calls[..|calls|] == calls;
    var p := Perform(c, calls);
    assert Safe(p.cloud);
    if !p.stopped && Do(p.cloud, call).Some? {
      CallKeepsSafe(p.cloud, call);
    }
    forall k | 0 <= k <= |more| ensures Safe(Perform(c, more[..k]).cloud) {
      if k <= |calls| {
        assert more[..k] == calls[..k];
      } else {
        assert more[..k] == more;
      }
    }
  }

  // ---- Publishing ----

  /** A cloud with everything a first function needs. */
  function Prepared(c: Cloud): Cloud {
    c.(role := true, policy := true, logGroup := true, roleRow := true, fnRow := true)
  }

  lemma FirstCallsSurvive(c: Cloud)
    requires Safe(c)
    ensures Survives(c, FirstCalls(c)) && Perform(c, FirstCalls(c)) == Progress(Prepared(c), false)
  {
    var p1 := [RecordRole];
    var p2 := p1 + if c.role then [] else [CreateRole];
    SurvivesMore(c, [], RecordRole);
    assert [] + p1 == p1;
    if c.role {
      assert p2 == p1;
    } else {
      SurvivesMore(c, p1, CreateRole);
    }
    SurvivesMore(c, p2, CreateLogGroup);
    SurvivesMore(c, p2 + [CreateLogGroup], PutPolicy);
    SurvivesMore(c, p2 + [CreateLogGroup] + [PutPolicy], RecordFn);
  }

  /** A call that succeeds where it is allowed, from one known cloud to the next. */
  lemma Succeeds(c: Cloud, calls: seq<Call>, call: Call, before: Cloud, after: Cloud)
    requires Survives(c, calls) && Perform(c, calls) == Progress(before, false)
    requires Allowed(before, call) && Do(before, call) == Some(after)
    ensures Survives(c, calls + [call]) && Perform(c, calls + [call]) == Progress(after, false)
  {
    SurvivesMore(c, calls, call);
  }

  lemma FirstPublishSurvives(c: Cloud, s: Snapshot, alias: string, cap: Option<bool>)
    requires Safe(c) && c.fn.None?
    ensures Survives(c, FirstPublish(c, s, alias, cap))
    ensures Perform(c, FirstPublish(c, s, alias, cap)) == Progress(
      Prepared(c).(fn := Some(WithAlias(Fn(s, map[1 := s], 2, map[], map[], 0, cap == Some(true)), alias, 1))), false)
  {
    FirstCallsSurvive(c);
    var d := Prepared(c);
    var f1 := Fn(s, map[1 := s], 2, map[], map[], 0, false);
    var p1 := FirstCalls(c) + [CreateFn(s)];
    Succeeds(c, FirstCalls(c), CreateFn(s), d, d.(fn := Some(f1)));
    var p2 := p1 + if cap.Some? then [PutConcurrency(cap.value)] else [];
    var f2 := f1.(capped := cap == Some(true));
    if cap.Some? {
      Succeeds(c, p1, PutConcurrency(cap.value), d.(fn := Some(f1)), d.(fn := Some(f2)));
    } else {
      assert p2 == p1;
    }
    assert p2 == CreationCalls(c, s, cap);
    PublishEnd(c, p2, d, f2, alias, 1);
  }

  /** A function with an alias more, and a URL for it. */
  function WithAlias(f: Fn, alias: string, v: nat): Fn {
    f.(aliases := f.aliases[alias := v], urls := f.urls[alias := f.nextUrl], nextUrl := f.nextUrl + 1)
  }

  /** The last two calls of every publish. */
  lemma PublishEnd(c: Cloud, calls: seq<Call>, d: Cloud, f: Fn, alias: string, v: nat)
    requires Survives(c, calls) && Perform(c, calls) == Progress(d.(fn := Some(f)), false)
    requires v in f.versions && alias !in f.aliases && alias !in f.urls
    ensures Survives(c, calls + [CreateAlias(alias, v)] + [CreateUrl(alias)])
    ensures Perform(c, calls + [CreateAlias(alias, v)] + [CreateUrl(alias)])
         == Progress(d.(fn := Some(WithAlias(f, alias, v))), false)
  {
    var f1 := f.(aliases := f.aliases[alias := v]);
    Succeeds(c, calls, CreateAlias(alias, v), d.(fn := Some(f)), d.(fn := Some(f1)));
    var f2 := f1.(urls := f1.urls[alias := f1.nextUrl], nextUrl := f1.nextUrl + 1);
    Succeeds(c, calls + [CreateAlias(alias, v)], CreateUrl(alias), d.(fn := Some(f1)), d.(fn := Some(f2)));
  }

  /** A function with a new version of the given code and environment. */
  function WithVersion(f: Fn, s: Snapshot): Fn {
    f.(latest := s, versions := f.versions[f.next := s], next := f.next + 1)
  }

  lemma NewVersionSurvives(c: Cloud, s: Snapshot)
    requires Safe(c) && c.fn.Some?
    ensures Survives(c, VersionCalls(s))
    ensures Perform(c, VersionCalls(s)) == Progress(c.(fn := Some(WithVersion(c.fn.value, s))), false)
  {
    var f := c.fn.value;
    var f1 := f.(latest := f.latest.(env := s.env));
    Succeeds(c, [], UpdateConfig(s.env), c, c.(fn := Some(f1)));
    assert [] + [UpdateConfig(s.env)] == [UpdateConfig(s.env)];
    Succeeds(c, [UpdateConfig(s.env)], UpdateCode(s.zip), c.(fn := Some(f1)), c.(fn := Some(WithVersion(f, s))));
  }

  lemma FreshPublishSurvives(c: Cloud, s: Snapshot, alias: string)
    requires Safe(c) && c.fn.Some? && alias !in c.fn.value.aliases
    ensures var calls := LaterPublish(c.fn.value, s, alias);
      && Survives(c, calls)
      && Perform(c, calls)
           == Progress(c.(fn := Some(WithAlias(WithVersion(c.fn.value, s), alias, c.fn.value.next))), false)
  {
    NewVersionSurvives(c, s);
    FreshPublishEnds(c, VersionCalls(s), s, alias);
  }

  lemma FreshPublishEnds(c: Cloud, calls: seq<Call>, s: Snapshot, alias: string)
    requires Safe(c) && c.fn.Some? && alias !in c.fn.value.aliases
    requires Survives(c, calls) && Perform(c, calls) == Progress(c.(fn := Some(WithVersion(c.fn.value, s))), false)
    ensures var all := calls + [CreateAlias(alias, c.fn.value.next)] + [CreateUrl(alias)];
      && Survives(c, all)
      && Perform(c, all)
           == Progress(c.(fn := Some(WithAlias(WithVersion(c.fn.value, s), alias, c.fn.value.next))), false)
  {
    PublishEnd(c, calls, c, WithVersion(c.fn.value, s), alias, c.fn.value.next);
  }

  /** Publishing a deployment id twice is refused, and harms nothing. */
  lemma RepeatedPublishSurvives(c: Cloud, s: Snapshot, alias: string)
    requires Safe(c) && c.fn.Some? && alias in c.fn.value.aliases
    ensures var calls := LaterPublish(c.fn.value, s, alias);
      Survives(c, calls) && Perform(c, calls).stopped
  {
    NewVersionSurvives(c, s);
    var p := VersionCalls(s);
    var p1 := p + [CreateAlias(alias, c.fn.value.next)];
    SurvivesMore(c, p, CreateAlias(alias, c.fn.value.next));
    assert Perform(c, p1).stopped;
    SurvivesMore(c, p1, CreateUrl(alias));
    assert LaterPublish(c.fn.value, s, alias) == p1 + [CreateUrl(alias)];
  }

  lemma AliasMoves(c: Cloud, calls: seq<Call>, f: Fn, alias: string, v: nat)
    requires Survives(c, calls) && Perform(c, calls) == Progress(c.(fn := Some(f)), false)
    requires v in f.versions && alias in f.aliases
    ensures Survives(c, calls + [UpdateAlias(alias, v)])
    ensures Perform(c, calls + [UpdateAlias(alias, v)])
         == Progress(c.(fn := Some(f.(aliases := f.aliases[alias := v]))), false)
  {
    Succeeds(c, calls, UpdateAlias(alias, v), c.(fn := Some(f)), c.(fn := Some(f.(aliases := f.aliases[alias := v]))));
  }

  /** What a refresh makes of a function: a version with the alias's own code, and the alias on it. */
  function Refreshed(f: Fn, alias: string, env: Env): Fn
    requires alias in f.aliases && f.aliases[alias] in f.versions
  {
    WithVersion(f, Snapshot(f.versions[f.aliases[alias]].zip, env)).(aliases := f.aliases[alias := f.next])
  }

  lemma RefreshSurvives(c: Cloud, alias: string, env: Env)
    requires Safe(c)
    ensures Survives(c, RefreshCalls(c, alias, env))
    ensures c.fn.Some? && alias in c.fn.value.aliases ==>
      Perform(c, RefreshCalls(c, alias, env)) == Progress(c.(fn := Some(Refreshed(c.fn.value, alias, env))), false)
  {
    if c.fn.Some? && alias in c.fn.value.aliases {
      var f := c.fn.value;
      var s := Snapshot(f.versions[f.aliases[alias]].zip, env);
      NewVersionSurvives(c, s);
      AliasMoves(c, VersionCalls(s), WithVersion(f, s), alias, f.next);
    }
  }

  // ---- Pruning and removing ----

  function Names(names: seq<string>): set<string> {
    set a | a in names
  }

  function Numbers(versions: seq<nat>): set<nat> {
    set v | v in versions
  }

  /** A cloud without some aliases and their URLs. */
  function Trimmed(c: Cloud, gone: set<string>): Cloud {
    if c.fn.None? then c
    else c.(fn := Some(c.fn.value.(aliases := c.fn.value.aliases - gone, urls := c.fn.value.urls - gone)))
  }

  lemma TrimMore(c: Cloud, gone: set<string>, a: string)
    ensures Do(Trimmed(c, gone), DeleteUrl(a)).Some?
    ensures var d := Do(Trimmed(c, gone), DeleteUrl(a)).value;
      Allowed(d, DeleteAlias(a)) && Do(d, DeleteAlias(a)) == Some(Trimmed(c, gone + {a}))
  {
    if c.fn.Some? {
      var f := c.fn.value;
      assert f.aliases - gone - {a} == f.aliases - (gone + {a});
      assert f.urls - gone - {a} == f.urls - (gone + {a});
    }
  }

  lemma {:induction false} DroppingSurvives(c: Cloud, names: seq<string>)
    requires Safe(c)
    ensures Survives(c, DropAliases(names))
    ensures Perform(c, DropAliases(names)) == Progress(Trimmed(c, Names(names)), false)
  {
    if names == [] {
      assert Names(names) == {};
      if c.fn.Some? {
        assert c.fn.value.aliases - {} == c.fn.value.aliases && c.fn.value.urls - {} == c.fn.value.urls;
      }
    } else {
      var before, a := names[..|names| - 1], names[|names| - 1];
      DroppingSurvives(c, before);
      TrimMore(c, Names(before), a);
      assert Names(names) == Names(before) + {a};
      var mid := Trimmed(c, Names(before));
      var d := Do(mid, DeleteUrl(a)).value;
      Succeeds(c, DropAliases(before), DeleteUrl(a), mid, d);
      Succeeds(c, DropAliases(before) + [DeleteUrl(a)], DeleteAlias(a), d, Trimmed(c, Names(names)));
    }
  }

  lemma {:induction false} UnkeptIsExact(names: seq<string>, keep: set<string>)
    ensures forall a :: a in Unkept(names, keep) <==> a in names && !IsKept(a, keep)
  {
    if names != [] {
      UnkeptIsExact(names[..|names| - 1], keep);
      assert names == names[..|names| - 1] + [names[|names| - 1]];
    }
  }

  function Unused(versions: seq<nat>, inUse: set<nat>): set<nat> {
    set v | v in versions && v !in inUse
  }

  function WithoutVersions(c: Cloud, gone: set<nat>): Cloud {
    if c.fn.None? then c else c.(fn := Some(c.fn.value.(versions := c.fn.value.versions - gone)))
  }

  lemma DropVersionMore(c: Cloud, gone: set<nat>, v: nat)
    requires c.fn.Some? ==> v !in c.fn.value.aliases.Values
    ensures Do(WithoutVersions(c, gone), DeleteVersion(v)) == Some(WithoutVersions(c, gone + {v}))
  {
    if c.fn.Some? {
      assert c.fn.value.versions - gone - {v} == c.fn.value.versions - (gone + {v});
    }
  }

  lemma {:induction false} DroppingVersionsSurvives(
      c: Cloud, calls: seq<Call>, mid: Cloud, versions: seq<nat>, inUse: set<nat>)
    requires Survives(c, calls) && Perform(c, calls) == Progress(mid, false)
    ensures Survives(c, calls + DropVersions(versions, inUse))
    ensures (mid.fn.Some? ==> mid.fn.value.aliases.Values <= inUse) ==>
      Perform(c, calls + DropVersions(versions, inUse))
        == Progress(WithoutVersions(mid, Unused(versions, inUse)), false)
  {
    if versions == [] {
      assert calls + [] == calls && Unused(versions, inUse) == {};
      if mid.fn.Some? {
        assert mid.fn.value.versions - {} == mid.fn.value.versions;
      }
    } else {
      var before, v := versions[..|versions| - 1], versions[|versions| - 1];
      DroppingVersionsSurvives(c, calls, mid, before, inUse);
      assert versions == before + [v];
      if v in inUse {
        assert DropVersions(versions, inUse) == DropVersions(before, inUse);
        assert Unused(versions, inUse) == Unused(before, inUse);
      } else {
        assert calls + DropVersions(versions, inUse) == (calls + DropVersions(before, inUse)) + [DeleteVersion(v)];
        SurvivesMore(c, calls + DropVersions(before, inUse), DeleteVersion(v));
        assert Unused(versions, inUse) == Unused(before, inUse) + {v};
        if mid.fn.Some? ==> mid.fn.value.aliases.Values <= inUse {
          DropVersionMore(mid, Unused(before, inUse), v);
        }
      }
    }
  }

  lemma PruneSurvives(c: Cloud, keep: set<string>, names: seq<string>, versions: seq<nat>)
    requires Safe(c)
    ensures Survives(c, PruneCalls(c, keep, names, versions))
    ensures (c.fn.Some? ==> c.fn.value.aliases.Keys == Names(names)) ==>
      Perform(c, PruneCalls(c, keep, names, versions))
        == Progress(WithoutVersions(Trimmed(c, Names(Unkept(names, keep))),
                                    Unused(versions, InUse(c, names, keep))), false)
  {
    var gone, inUse := Names(Unkept(names, keep)), InUse(c, names, keep);
    DroppingSurvives(c, Unkept(names, keep));
    DroppingVersionsSurvives(c, DropAliases(Unkept(names, keep)), Trimmed(c, gone), versions, inUse);
    UnkeptIsExact(names, keep);
    if c.fn.Some? && c.fn.value.aliases.Keys == Names(names) {
      var left := c.fn.value.aliases - gone;
      forall v | v in left.Values ensures v in inUse {
        var a :| a in left && left[a] == v;
        assert a in Names(names);
      }
    }
  }

  lemma RemoveSurvives(c: Cloud, names: seq<string>)
    requires Safe(c)
    ensures Survives(c, RemoveCalls(names)) && Perform(c, RemoveCalls(names)) == Progress(NOTHING, false)
  {
    DroppingSurvives(c, names);
    var d := Trimmed(c, Names(names)).(fn := None);
    var p := DropAliases(names);
    Succeeds(c, p, DeleteFn, Trimmed(c, Names(names)), d);
    Succeeds(c, p + [DeleteFn], MarkFnDeleted, d, d.(fnRow := false));
    RemoveRest(c, p + [DeleteFn] + [MarkFnDeleted], d.(fnRow := false));
  }

  lemma RemoveRest(c: Cloud, p: seq<Call>, d: Cloud)
    requires Survives(c, p) && Perform(c, p) == Progress(d, false) && d.fn.None? && !d.fnRow
    ensures var calls := p + [DeleteLogGroup] + [DeletePolicy] + [DeleteRole] + [MarkRoleDeleted];
      Survives(c, calls) && Perform(c, calls) == Progress(NOTHING, false)
  {
    var e := d.(logGroup := false);
    Succeeds(c, p, DeleteLogGroup, d, e);
    RemovePolicy(c, p + [DeleteLogGroup], e);
    RemoveRole(c, p + [DeleteLogGroup] + [DeletePolicy], e.(policy := false));
  }

  lemma RemovePolicy(c: Cloud, p: seq<Call>, d: Cloud)
    requires Survives(c, p) && Perform(c, p) == Progress(d, false) && d.fn.None?
    ensures Survives(c, p + [DeletePolicy]) && Perform(c, p + [DeletePolicy]) == Progress(d.(policy := false), false)
  {
    Succeeds(c, p, DeletePolicy, d, d.(policy := false));
  }

  lemma RemoveRole(c: Cloud, p: seq<Call>, d: Cloud)
    requires Survives(c, p) && Perform(c, p) == Progress(d, false)
    requires d.fn.None? && !d.fnRow && !d.logGroup && !d.policy
    ensures var calls := p + [DeleteRole] + [MarkRoleDeleted];
      Survives(c, calls) && Perform(c, calls) == Progress(NOTHING, false)
  {
    Succeeds(c, p, DeleteRole, d, d.(role := false));
    Succeeds(c, p + [DeleteRole], MarkRoleDeleted, d.(role := false), NOTHING);
  }

  // ---- Every history ----

  lemma RunSurvives(c: Cloud, run: Run)
    requires Safe(c)
    ensures Survives(c, Calls(c, run))
  {
    match run
    case Publish(s, alias, cap) =>
      if !Exists(c) {
        FirstPublishSurvives(c, s, alias, cap);
      } else if alias in c.fn.value.aliases {
        RepeatedPublishSurvives(c, s, alias);
      } else {
        FreshPublishSurvives(c, s, alias);
      }
    case Refresh(alias, env) => RefreshSurvives(c, alias, env);
    case Prune(keep, names, versions) => PruneSurvives(c, keep, names, versions);
    case Remove(names) => RemoveSurvives(c, names);
  }

  lemma CutRunKeepsSafe(c: Cloud, run: Run, cut: nat)
    requires Safe(c)
    ensures Safe(After(c, run, cut))
  {
    RunSurvives(c, run);
    var calls := Calls(c, run);
    assert calls[..|calls|] == calls;
  }

  /**
   * After any operations in any order, each cut off after any of its calls: a
   * function has its role, its log group and the right to write to it, whatever exists in AWS is remembered by a
   * live row, every alias is on a version that exists, and no URL outlives its alias.
   */
  lemma {:induction false} EveryHistoryIsSafe(runs: seq<CutRun>)
    ensures Safe(History(runs))
  {
    if runs != [] {
      EveryHistoryIsSafe(runs[..|runs| - 1]);
      CutRunKeepsSafe(History(runs[..|runs| - 1]), runs[|runs| - 1].run, runs[|runs| - 1].cut);
    }
  }

  /** The branch for a function whose role has gone is never taken. */
  lemma {:induction false} RoleIsNeverMissing(runs: seq<CutRun>)
    ensures Exists(History(runs)) ==> History(runs).role
    ensures History(runs).fn.Some? ==> Exists(History(runs))
  {
    EveryHistoryIsSafe(runs);
  }

  // ---- What a visitor of a deployment gets ----

  datatype Deployment = Deployment(version: nat, snapshot: Snapshot, url: Option<nat>)

  function DeploymentOf(c: Cloud, alias: string): Option<Deployment> {
    if c.fn.None? || alias !in c.fn.value.aliases || c.fn.value.aliases[alias] !in c.fn.value.versions then None
    else
      var f := c.fn.value;
      Some(Deployment(f.aliases[alias], f.versions[f.aliases[alias]],
                      if alias in f.urls then Some(f.urls[alias]) else None))
  }

  /** Calls that name neither this alias nor the whole function. */
  predicate Spares(call: Call, alias: string) {
    match call
    case CreateAlias(a, _) => a != alias
    case CreateUrl(a) => a != alias
    case UpdateAlias(a, _) => a != alias
    case DeleteUrl(a) => a != alias
    case DeleteAlias(a) => a != alias
    case DeleteFn => false
    case _ => true
  }

  lemma SparingKeepsDeployment(c: Cloud, call: Call, alias: string)
    requires Safe(c) && Spares(call, alias) && Do(c, call).Some? && DeploymentOf(c, alias).Some?
    ensures DeploymentOf(Do(c, call).value, alias) == DeploymentOf(c, alias)
  {
    var f := c.fn.value;
    if call.DeleteVersion? {
      assert f.aliases[alias] in f.aliases.Values;
    }
  }

  /** A deployment that no call names is the same at every point of a run. */
  lemma {:induction false} SparedThroughout(c: Cloud, calls: seq<Call>, alias: string)
    requires Survives(c, calls) && DeploymentOf(c, alias).Some?
    requires forall i :: 0 <= i < |calls| ==> Spares(calls[i], alias)
    ensures forall k :: 0 <= k <= |calls| ==>
      DeploymentOf(Perform(c, calls[..k]).cloud, alias) == DeploymentOf(c, alias)
  {
    if calls != [] {
      var before, call := calls[..|calls| - 1], calls[|calls| - 1];
      assert forall k :: 0 <= k <= |before| ==> before[..k] == calls[..k];
      SparedThroughout(c, before, alias);
      assert before[..|before|] == before && calls[..|calls|] == calls;
      var p := Perform(c, before);
      assert Safe(p.cloud);
      if !p.stopped && Do(p.cloud, call).Some? {
        SparingKeepsDeployment(p.cloud, call, alias);
      }
      forall k | 0 <= k <= |calls| ensures DeploymentOf(Perform(c, calls[..k]).cloud, alias) == DeploymentOf(c, alias) {
        if k < |calls| {
          assert calls[..k] == before[..k];
        }
      }
    }
  }

  lemma {:induction false} DropVersionsSpare(versions: seq<nat>, inUse: set<nat>, alias: string)
    ensures forall i :: 0 <= i < |DropVersions(versions, inUse)| ==> Spares(DropVersions(versions, inUse)[i], alias)
  {
    if versions != [] {
      DropVersionsSpare(versions[..|versions| - 1], inUse, alias);
    }
  }

  lemma {:induction false} DropAliasesSpare(names: seq<string>, alias: string)
    requires alias !in names
    ensures forall i :: 0 <= i < |DropAliases(names)| ==> Spares(DropAliases(names)[i], alias)
  {
    if names != [] {
      DropAliasesSpare(names[..|names| - 1], alias);
    }
  }

  /** What a prune keeps: aliases that are no deployment's, and those of the deployments to keep. */
  lemma KeptMeans(alias: string, keep: set<string>)
    ensures IsKept(alias, keep) <==> !("d-" <= alias) || exists id :: id in keep && alias == "d-" + id
  {
    if id :| id in keep && alias == "d-" + id {
      assert AliasName(id) == alias;
    }
  }

  /** The deployments an operation is about. */
  predicate Concerns(run: Run, alias: string) {
    match run
    case Publish(_, a, _) => a == alias
    case Refresh(a, _) => a == alias
    case Prune(keep, _, _) => "d-" <= alias && forall id :: id in keep ==> alias != "d-" + id
    case Remove(_) => true
  }

  lemma CallsSpare(c: Cloud, run: Run, alias: string)
    requires !Concerns(run, alias)
    ensures forall i :: 0 <= i < |Calls(c, run)| ==> Spares(Calls(c, run)[i], alias)
  {
    match run
    case Prune(keep, names, versions) =>
      UnkeptIsExact(names, keep);
      KeptMeans(alias, keep);
      DropAliasesSpare(Unkept(names, keep), alias);
      DropVersionsSpare(versions, InUse(c, names, keep), alias);
    case _ =>
  }

  /**
   * At every crash point of an operation the deployments it is not about keep
   * their version, code, environment and URL.
   */
  lemma {:induction false} OtherDeploymentsAreUntouched(runs: seq<CutRun>, run: Run, cut: nat, alias: string)
    requires !Concerns(run, alias) && DeploymentOf(History(runs), alias).Some?
    ensures DeploymentOf(After(History(runs), run, cut), alias) == DeploymentOf(History(runs), alias)
  {
    var c := History(runs);
    EveryHistoryIsSafe(runs);
    RunSurvives(c, run);
    CallsSpare(c, run, alias);
    SparedThroughout(c, Calls(c, run), alias);
    var calls := Calls(c, run);
    assert calls[..|calls|] == calls;
  }

  // ---- The concurrency limit ----

  /** Calls that neither set a limit nor make or take away a function. */
  predicate LeavesLimit(call: Call) {
    !call.PutConcurrency? && !call.CreateFn? && !call.DeleteFn?
  }

  /** Whether the function is limited, if there is one. */
  function LimitOf(c: Cloud): Option<bool> {
    if c.fn.None? then None else Some(c.fn.value.capped)
  }

  lemma FnCallLeavesLimit(f: Fn, call: Call)
    requires !call.PutConcurrency? && DoFn(f, call).Some?
    ensures DoFn(f, call).value.capped == f.capped
  {
  }

  lemma CallLeavesLimit(c: Cloud, call: Call)
    requires LeavesLimit(call) && Do(c, call).Some?
    ensures LimitOf(Do(c, call).value) == LimitOf(c)
  {
    if c.fn.Some? && DoFn(c.fn.value, call).Some? {
      FnCallLeavesLimit(c.fn.value, call);
    }
  }

  lemma {:induction false} LimitStays(c: Cloud, calls: seq<Call>)
    requires forall i :: 0 <= i < |calls| ==> LeavesLimit(calls[i])
    ensures LimitOf(Perform(c, calls).cloud) == LimitOf(c)
  {
    if calls != [] {
      LimitStays(c, calls[..|calls| - 1]);
      var p := Perform(c, calls[..|calls| - 1]);
      if Do(p.cloud, calls[|calls| - 1]).Some? {
        CallLeavesLimit(p.cloud, calls[|calls| - 1]);
      }
    }
  }

  lemma {:induction false} DropsLeaveLimit(names: seq<string>, versions: seq<nat>, inUse: set<nat>)
    ensures forall i :: 0 <= i < |DropAliases(names)| ==> LeavesLimit(DropAliases(names)[i])
    ensures forall i :: 0 <= i < |DropVersions(versions, inUse)| ==> LeavesLimit(DropVersions(versions, inUse)[i])
  {
    if names != [] {
      DropsLeaveLimit(names[..|names| - 1], versions, inUse);
    } else if versions != [] {
      DropsLeaveLimit(names, versions[..|versions| - 1], inUse);
    }
  }

  /** Once there is a function, nothing but its removal changes whether it is limited. */
  lemma LimitIsSetOnce(c: Cloud, run: Run, cut: nat)
    requires Exists(c) && !run.Remove?
    ensures LimitOf(After(c, run, cut)) == LimitOf(c)
  {
    if run.Prune? {
      DropsLeaveLimit(Unkept(run.names, run.keep), run.versions, InUse(c, run.names, run.keep));
    }
    var calls := Calls(c, run);
    assert forall i :: 0 <= i < |calls| ==> LeavesLimit(calls[i]);
    LimitStays(c, if cut < |calls| then calls[..cut] else calls);
  }

  lemma {:induction false} PerformInTwo(c: Cloud, first: seq<Call>, second: seq<Call>)
    requires !Perform(c, first).stopped
    ensures Perform(c, first + second) == Perform(Perform(c, first).cloud, second)
  {
    if second == [] {
      assert first + [] == first;
    } else {
      assert (first + second)[..|first + second| - 1] == first + second[..|second| - 1];
      PerformInTwo(c, first, second[..|second| - 1]);
    }
  }

  /** A first publish has its function from the fifth call on, or the sixth if it makes the role, and not limited. */
  lemma FirstPublishCreates(c: Cloud, s: Snapshot)
    requires Safe(c) && c.fn.None?
    ensures var n := if c.role then 4 else 5;
      |FirstCalls(c)| == n && forall i :: 0 <= i < n ==> LeavesLimit(FirstCalls(c)[i])
    ensures var p := Perform(c, FirstCalls(c) + [CreateFn(s)]);
      !p.stopped && LimitOf(p.cloud) == Some(false)
  {
    FirstCallsSurvive(c);
    assert (FirstCalls(c) + [CreateFn(s)])[..|FirstCalls(c)|] == FirstCalls(c);
  }

  /** The calls after the function is there. */
  function RestOfPublish(alias: string, cap: Option<bool>): seq<Call> {
    (if cap.Some? then [PutConcurrency(cap.value)] else []) + [CreateAlias(alias, 1)] + [CreateUrl(alias)]
  }

  lemma {:induction false} SecondCallOn(d: Cloud, first: Call, rest: seq<Call>)
    requires Do(d, first).Some? && forall i :: 0 <= i < |rest| ==> LeavesLimit(rest[i])
    ensures LimitOf(Perform(d, [first] + rest).cloud) == LimitOf(Do(d, first).value)
  {
    assert [first][..0] == [];
    assert Perform(d, [first]) == Next(Progress(d, false), first);
    PerformInTwo(d, [first], rest);
    LimitStays(Do(d, first).value, rest);
  }

  lemma RestLimits(d: Cloud, alias: string, cap: Option<bool>, k: nat)
    requires LimitOf(d) == Some(false) && k <= |RestOfPublish(alias, cap)|
    ensures LimitOf(Perform(d, RestOfPublish(alias, cap)[..k]).cloud) == Some(cap == Some(true) && k > 0)
  {
    var rest := RestOfPublish(alias, cap);
    if cap.Some? && k > 0 {
      assert rest == [PutConcurrency(cap.value)] + [CreateAlias(alias, 1)] + [CreateUrl(alias)];
      assert rest[..k] == [PutConcurrency(cap.value)] + rest[1..k];
      SecondCallOn(d, PutConcurrency(cap.value), rest[1..k]);
    } else {
      LimitStays(d, rest[..k]);
    }
  }

  lemma FirstPublishCut(c: Cloud, s: Snapshot, alias: string, cap: Option<bool>, cut: nat)
    requires cut > |FirstCalls(c)|
    ensures var rest, k := RestOfPublish(alias, cap), cut - |FirstCalls(c)| - 1;
      Cut(c, FirstPublish(c, s, alias, cap), cut)
      == Perform(c, FirstCalls(c) + [CreateFn(s)] + rest[..if k < |rest| then k else |rest|]).cloud
  {
    var made, rest, calls := FirstCalls(c) + [CreateFn(s)], RestOfPublish(alias, cap), FirstPublish(c, s, alias, cap);
    assert calls == made + rest;
    var k := cut - |made|;
    assert rest[..|rest|] == rest;
    if k < |rest| {
      assert calls[..cut] == made + rest[..k];
    }
  }

  lemma EarlyCutMakesNone(c: Cloud, s: Snapshot, alias: string, cap: Option<bool>, cut: nat)
    requires Safe(c) && c.fn.None? && cut <= |FirstCalls(c)|
    ensures Cut(c, FirstPublish(c, s, alias, cap), cut).fn.None?
  {
    FirstPublishCreates(c, s);
    var first := FirstCalls(c);
    assert FirstPublish(c, s, alias, cap) == first + [CreateFn(s)] + RestOfPublish(alias, cap);
    assert FirstPublish(c, s, alias, cap)[..cut] == first[..cut];
    LimitStays(c, first[..cut]);
  }

  lemma LateCutLimits(c: Cloud, s: Snapshot, alias: string, cap: Option<bool>, cut: nat)
    requires Safe(c) && c.fn.None? && cut > |FirstCalls(c)|
    ensures LimitOf(Cut(c, FirstPublish(c, s, alias, cap), cut))
         == Some(cap == Some(true) && cut > |FirstCalls(c)| + 1)
  {
    FirstPublishCreates(c, s);
    var made, rest := FirstCalls(c) + [CreateFn(s)], RestOfPublish(alias, cap);
    FirstPublishCut(c, s, alias, cap, cut);
    var k := if cut - |made| < |rest| then cut - |made| else |rest|;
    PerformInTwo(c, made, rest[..k]);
    RestLimits(Perform(c, made).cloud, alias, cap, k);
  }

  lemma FirstPublishLimits(c: Cloud, s: Snapshot, alias: string, cap: Option<bool>, cut: nat)
    requires Safe(c) && c.fn.None?
    ensures var n := if c.role then 5 else 6;
      LimitOf(After(c, Publish(s, alias, cap), cut))
      == if cut < n then None else Some(cap == Some(true) && cut > n)
  {
    FirstPublishCreates(c, s);
    if cut <= |FirstCalls(c)| {
      EarlyCutMakesNone(c, s, alias, cap, cut);
    } else {
      LateCutLimits(c, s, alias, cap, cut);
    }
  }

  lemma {:induction false} LimitStaysThrough(c: Cloud, more: seq<CutRun>)
    requires Safe(c) && c.fn.Some? && forall i :: 0 <= i < |more| ==> !more[i].run.Remove?
    ensures Safe(Onward(c, more)) && LimitOf(Onward(c, more)) == LimitOf(c)
  {
    if more != [] {
      var before, last := more[..|more| - 1], more[|more| - 1];
      LimitStaysThrough(c, before);
      CutRunKeepsSafe(Onward(c, before), last.run, last.cut);
      LimitIsSetOnce(Onward(c, before), last.run, last.cut);
    }
  }

  /**
   * Whether a function is limited, until it is removed: if and only if the publish
   * that made it got past the call that sets the limit. The publishes that follow
   * never make up for it.
   */
  lemma {:induction false} FunctionIsLimitedIff(runs: seq<CutRun>, s: Snapshot, alias: string, cap: Option<bool>,
                                                cut: nat, more: seq<CutRun>)
    requires History(runs).fn.None? && cut >= (if History(runs).role then 5 else 6)
    requires forall i :: 0 <= i < |more| ==> !more[i].run.Remove?
    ensures var n, made := if History(runs).role then 5 else 6, After(History(runs), Publish(s, alias, cap), cut);
      LimitOf(Onward(made, more)) == Some(cap == Some(true) && cut > n)
  {
    EveryHistoryIsSafe(runs);
    CutRunKeepsSafe(History(runs), Publish(s, alias, cap), cut);
    FirstPublishLimits(History(runs), s, alias, cap, cut);
    LimitStaysThrough(After(History(runs), Publish(s, alias, cap), cut), more);
  }

  // ---- What completing an operation achieves ----

  /**
   * After any history, publishing under a fresh id ends with its alias on a new
   * version of exactly this code and environment.
   */
  lemma {:induction false} PublishCompletes(runs: seq<CutRun>, s: Snapshot, alias: string, cap: Option<bool>)
    requires DeploymentOf(History(runs), alias).None?
    ensures var c := History(runs); var calls := PublishCalls(c, s, alias, cap);
      var p := Perform(c, calls); var d := DeploymentOf(p.cloud, alias);
      && calls != [] && !p.stopped && d.Some? && d.value.snapshot == s && d.value.url.Some?
      && (c.fn.Some? ==> d.value.version !in c.fn.value.versions)
  {
    var c := History(runs);
    EveryHistoryIsSafe(runs);
    if !Exists(c) {
      FirstPublishSurvives(c, s, alias, cap);
    } else {
      assert alias !in c.fn.value.aliases;
      FreshPublishSurvives(c, s, alias);
    }
  }

  /**
   * Refreshing a deployment changes its environment and nothing else of it, and at
   * every crash point it is the old one or the new.
   */
  lemma {:induction false} RefreshCompletes(runs: seq<CutRun>, alias: string, env: Env)
    requires DeploymentOf(History(runs), alias).Some?
    ensures var c := History(runs); var was := DeploymentOf(c, alias).value;
      var calls := RefreshCalls(c, alias, env);
      && !Perform(c, calls).stopped
      && DeploymentOf(Perform(c, calls).cloud, alias)
           == Some(Deployment(c.fn.value.next, was.snapshot.(env := env), was.url))
      && forall k :: 0 <= k < |calls| ==> DeploymentOf(Perform(c, calls[..k]).cloud, alias) == Some(was)
  {
    var c := History(runs);
    EveryHistoryIsSafe(runs);
    RefreshSurvives(c, alias, env);
    var zip := c.fn.value.versions[c.fn.value.aliases[alias]].zip;
    NewVersionSurvives(c, Snapshot(zip, env));
    var before := VersionCalls(Snapshot(zip, env));
    SparedThroughout(c, before, alias);
    var calls := RefreshCalls(c, alias, env);
    assert forall k :: 0 <= k < |calls| ==> calls[..k] == before[..k];
  }

  /**
   * g is f without the aliases of deployments outside `keep`, their URLs, and the
   * versions that none of the aliases left is on.
   */
  ghost predicate IsPruned(f: Fn, g: Fn, keep: set<string>) {
    && g.latest == f.latest
    && (forall a :: a in g.aliases <==>
          a in f.aliases && (!("d-" <= a) || exists id :: id in keep && a == "d-" + id))
    && (forall a :: a in g.aliases ==> g.aliases[a] == f.aliases[a])
    && (forall a :: a in g.urls <==> a in f.urls && a in g.aliases)
    && (forall a :: a in g.urls ==> g.urls[a] == f.urls[a])
    && (forall v :: v in g.versions <==> v in f.versions && exists a :: a in g.aliases && g.aliases[a] == v)
    && (forall v :: v in g.versions ==> g.versions[v] == f.versions[v])
  }

  /** Pruning with true listings keeps exactly the kept aliases and the versions they are on. */
  lemma {:induction false} PruneCompletes(runs: seq<CutRun>, keep: set<string>, names: seq<string>, versions: seq<nat>)
    requires History(runs).fn.Some? && Names(names) == History(runs).fn.value.aliases.Keys
    requires Numbers(versions) == History(runs).fn.value.versions.Keys
    ensures var p := Perform(History(runs), PruneCalls(History(runs), keep, names, versions));
      !p.stopped && p.cloud.fn.Some? && IsPruned(History(runs).fn.value, p.cloud.fn.value, keep)
  {
    var c := History(runs);
    EveryHistoryIsSafe(runs);
    PruneSurvives(c, keep, names, versions);
    UnkeptIsExact(names, keep);
    PrunedShape(c.fn.value, keep, names, versions);
    var f, g := c.fn.value, Perform(c, PruneCalls(c, keep, names, versions)).cloud.fn.value;
    PrunedMeans(f, g, keep);
  }

  /** Every deployment to keep is the same at every point at which a prune may be cut off. */
  lemma {:induction false} PruneSparesKept(runs: seq<CutRun>, keep: set<string>, names: seq<string>,
                                           versions: seq<nat>, id: string, cut: nat)
    requires id in keep && DeploymentOf(History(runs), "d-" + id).Some?
    ensures DeploymentOf(After(History(runs), Prune(keep, names, versions), cut), "d-" + id)
         == DeploymentOf(History(runs), "d-" + id)
  {
    OtherDeploymentsAreUntouched(runs, Prune(keep, names, versions), cut, "d-" + id);
  }

  lemma PrunedMeans(f: Fn, g: Fn, keep: set<string>)
    requires FnSafe(f) && g.latest == f.latest
    requires g.aliases == (map a | a in f.aliases && IsKept(a, keep) :: f.aliases[a])
    requires g.urls == (map a | a in f.urls && IsKept(a, keep) :: f.urls[a])
    requires g.versions == (map v | v in f.versions && v in g.aliases.Values :: f.versions[v])
    ensures IsPruned(f, g, keep)
  {
    forall a ensures IsKept(a, keep) <==> !("d-" <= a) || exists id :: id in keep && a == "d-" + id {
      KeptMeans(a, keep);
    }
  }

  lemma PrunedAliases(f: Fn, keep: set<string>, names: seq<string>)
    requires FnSafe(f) && Names(names) == f.aliases.Keys
    requires forall a :: a in Unkept(names, keep) <==> a in names && !IsKept(a, keep)
    ensures var gone := Names(Unkept(names, keep));
      && f.aliases - gone == (map a | a in f.aliases && IsKept(a, keep) :: f.aliases[a])
      && f.urls - gone == (map a | a in f.urls && IsKept(a, keep) :: f.urls[a])
  {
    var gone := Names(Unkept(names, keep));
    forall a | a in f.aliases ensures a in gone <==> !IsKept(a, keep) {
      assert a in Names(names);
    }
  }

  lemma VersionsInUse(f: Fn, keep: set<string>, names: seq<string>, left: map<string, nat>)
    requires Names(names) == f.aliases.Keys
    requires left == map a | a in f.aliases && IsKept(a, keep) :: f.aliases[a]
    ensures (set a | a in names && a in f.aliases && IsKept(a, keep) :: f.aliases[a]) == left.Values
  {
    var inUse := set a | a in names && a in f.aliases && IsKept(a, keep) :: f.aliases[a];
    forall v | v in inUse ensures v in left.Values {
      var a :| a in names && a in f.aliases && IsKept(a, keep) && f.aliases[a] == v;
      assert a in left;
    }
    forall v | v in left.Values ensures v in inUse {
      var a :| a in left && left[a] == v;
      assert a in Names(names);
    }
  }

  lemma PrunedShape(f: Fn, keep: set<string>, names: seq<string>, versions: seq<nat>)
    requires FnSafe(f) && Names(names) == f.aliases.Keys && Numbers(versions) == f.versions.Keys
    requires forall a :: a in Unkept(names, keep) <==> a in names && !IsKept(a, keep)
    ensures var gone := Names(Unkept(names, keep));
      var inUse := set a | a in names && a in f.aliases && IsKept(a, keep) :: f.aliases[a];
      && f.aliases - gone == (map a | a in f.aliases && IsKept(a, keep) :: f.aliases[a])
      && f.urls - gone == (map a | a in f.urls && IsKept(a, keep) :: f.urls[a])
      && f.versions - Unused(versions, inUse)
           == (map v | v in f.versions && v in (f.aliases - gone).Values :: f.versions[v])
  {
    PrunedAliases(f, keep, names);
    var left := f.aliases - Names(Unkept(names, keep));
    VersionsInUse(f, keep, names, left);
    forall v | v in f.versions ensures v in Unused(versions, left.Values) <==> v !in left.Values {
      assert v in Numbers(versions);
    }
  }

  /** Removal run to its end leaves nothing, whatever went before it, a cut-off removal included. */
  lemma {:induction false} RemovalLeavesNothing(runs: seq<CutRun>, names: seq<string>)
    ensures Perform(History(runs), RemoveCalls(names)) == Progress(NOTHING, false)
  {
    EveryHistoryIsSafe(runs);
    RemoveSurvives(History(runs), names);
  }
}
