/**
 * One evaluation run of a canary (`LoadSecrets` and `CanaryJob.Run`): resolve the secret
 * references of the spec's `env`, template the spec, run every registered checker on it and
 * collect their results in registry order.
 */
module Job {

  import opened Wrappers
  import opened Seqs
  import opened Api
  import opened Templater

  /** What the external resolver (`GetEnvVarRefValue`) gives for one reference. */
  datatype Resolution = Resolved(value: string) | ResolveError(message: string)

  /** The outcome of resolving a whole `env` section. */
  datatype EnvOutcome = EnvValues(values: map<string, string>) | EnvError(message: string)

  /** Resolves the entries left to right, stopping at the first failure; a later entry overwrites an earlier one with the same key. */
  function ResolveEnv(namespace: string, env: seq<Entry>, resolve: (string, Value) -> Resolution): (r: EnvOutcome)
    ensures r.EnvError? ==> exists i :: 0 <= i < |env| && resolve(namespace, env[i].value) == ResolveError(r.message)
  {
    if |env| == 0 then EnvValues(map[])
    else
      var last := env[|env| - 1];
      match ResolveEnv(namespace, env[..|env| - 1], resolve)
      case EnvError(m) => EnvError(m)
      case EnvValues(vs) =>
        match resolve(namespace, last.value)
        case ResolveError(m) => EnvError(m)
        case Resolved(s) => EnvValues(vs[last.key := s])
  }

  /** Resolution fails exactly when some reference fails, and then with the message of the first failing one. */
  lemma {:induction false} ResolveEnvFailure(namespace: string, env: seq<Entry>, resolve: (string, Value) -> Resolution)
    ensures ResolveEnv(namespace, env, resolve).EnvError? <==>
              exists i :: 0 <= i < |env| && resolve(namespace, env[i].value).ResolveError?
    ensures ResolveEnv(namespace, env, resolve).EnvError? ==>
              exists i :: 0 <= i < |env|
                && resolve(namespace, env[i].value) == ResolveError(ResolveEnv(namespace, env, resolve).message)
                && forall j :: 0 <= j < i ==> resolve(namespace, env[j].value).Resolved?
  {
    if |env| > 0 {
      var n := |env| - 1;
      var init := env[..n];
      ResolveEnvFailure(namespace, init, resolve);
      if ResolveEnv(namespace, init, resolve).EnvError? {
        var i :| 0 <= i < n
          && resolve(namespace, init[i].value) == ResolveError(ResolveEnv(namespace, init, resolve).message)
          && forall j :: 0 <= j < i ==> resolve(namespace, init[j].value).Resolved?;
        assert init[i] == env[i];
        assert forall j :: 0 <= j < i ==> init[j] == env[j];
      } else {
        assert forall j :: 0 <= j < n ==> init[j] == env[j];
      }
    }
  }

  /** On success the keys with a value are exactly the keys of `env`. */
  lemma {:induction false} ResolveEnvKeys(namespace: string, env: seq<Entry>, resolve: (string, Value) -> Resolution)
    requires ResolveEnv(namespace, env, resolve).EnvValues?
    ensures forall k :: k in ResolveEnv(namespace, env, resolve).values <==> exists i :: 0 <= i < |env| && env[i].key == k
  {
    if |env| > 0 {
      var n := |env| - 1;
      var init := env[..n];
      ResolveEnvKeys(namespace, init, resolve);
      var vs := ResolveEnv(namespace, init, resolve).values;
      forall k ensures k in ResolveEnv(namespace, env, resolve).values <==> exists i :: 0 <= i < |env| && env[i].key == k {
        if k in vs {
          var i :| 0 <= i < n && init[i].key == k;
          assert env[i].key == k;
        }
        if exists i :: 0 <= i < |env| && env[i].key == k {
          var i :| 0 <= i < |env| && env[i].key == k;
          if i < n {
            assert init[i].key == k;
          }
        }
      }
    }
  }

  /** On success a key's value is the resolution of the last entry with that key. */
  lemma {:induction false} ResolveEnvValues(namespace: string, env: seq<Entry>, resolve: (string, Value) -> Resolution, i: nat)
    requires ResolveEnv(namespace, env, resolve).EnvValues?
    requires i < |env| && forall j :: i < j < |env| ==> env[j].key != env[i].key
    ensures env[i].key in ResolveEnv(namespace, env, resolve).values
    ensures resolve(namespace, env[i].value) == Resolved(ResolveEnv(namespace, env, resolve).values[env[i].key])
  {
    var n := |env| - 1;
    if i < n {
      var init := env[..n];
      assert init[i] == env[i];
      assert forall j :: i < j < n ==> init[j] == env[j];
      ResolveEnvValues(namespace, init, resolve, i);
    }
  }

  /**
   * `LoadSecrets`: on a resolver failure, the error and the spec as given; otherwise no error
   * and the spec templated with the resolved values.
   */
  method LoadSecrets(namespace: string, spec: CanarySpec, resolve: (string, Value) -> Resolution)
    returns (out: CanarySpec, err: Option<string>)
    ensures ResolveEnv(namespace, spec.env, resolve).EnvError? ==>
              err == Some(ResolveEnv(namespace, spec.env, resolve).message) && out == spec
    ensures ResolveEnv(namespace, spec.env, resolve).EnvValues? ==>
              err == None && out == TemplateSpec(ResolveEnv(namespace, spec.env, resolve).values, spec)
  {
    var values: map<string, string> := map[];
    var i := 0;
    while i < |spec.env|
      invariant 0 <= i <= |spec.env|
      invariant ResolveEnv(namespace, spec.env[..i], resolve) == EnvValues(values)
    {
      var entry := spec.env[i];
      assert spec.env[..i + 1][..i] == spec.env[..i];
      match resolve(namespace, entry.value)
      case ResolveError(m) =>
        assert ResolveEnv(namespace, spec.env[..i + 1], resolve) == EnvError(m);
        ResolveEnvStops(namespace, spec.env, i + 1, resolve);
        return spec, Some(m);
      case Resolved(s) =>
        assert ResolveEnv(namespace, spec.env[..i + 1], resolve) == EnvValues(values[entry.key := s]);
        values := values[entry.key := s];
      i := i + 1;
    }
    assert spec.env[..i] == spec.env;
    out := TemplateSpec(values, spec);
    err := None;
  }

  /** Once a prefix of `env` fails, the whole of `env` fails with the same message. */
  lemma {:induction false} ResolveEnvStops(namespace: string, env: seq<Entry>, k: nat, resolve: (string, Value) -> Resolution)
    requires k <= |env| && ResolveEnv(namespace, env[..k], resolve).EnvError?
    ensures ResolveEnv(namespace, env, resolve) == ResolveEnv(namespace, env[..k], resolve)
    decreases |env| - k
  {
    if k < |env| {
      assert env[..k + 1][..k] == env[..k];
      ResolveEnvStops(namespace, env, k + 1, resolve);
    } else {
      assert env[..k] == env;
    }
  }

  /** The results of running every checker on `spec`, checker by checker in registry order. */
  function Collect(checkers: seq<CanarySpec -> seq<CheckResult>>, spec: CanarySpec): (r: seq<CheckResult>)
    ensures forall k, j :: 0 <= k < |checkers| && 0 <= j < |checkers[k](spec)| ==> checkers[k](spec)[j] in r
  {
    var xss := seq(|checkers|, k requires 0 <= k < |checkers| => checkers[k](spec));
    FlattenContains(xss);
    assert forall k :: 0 <= k < |checkers| ==> xss[k] == checkers[k](spec);
    Flatten(xss)
  }

  /** Result `j` of checker `k` sits in the combined list after the results of every earlier checker. */
  lemma CollectAt(checkers: seq<CanarySpec -> seq<CheckResult>>, spec: CanarySpec, k: nat, j: nat)
    requires k < |checkers| && j < |checkers[k](spec)|
    ensures var xss := seq(|checkers|, k requires 0 <= k < |checkers| => checkers[k](spec));
      && |Collect(checkers, spec)| == Offset(xss, |checkers|)
      && Offset(xss, k) + j < |Collect(checkers, spec)|
      && Collect(checkers, spec)[Offset(xss, k) + j] == checkers[k](spec)[j]
  {
    var xss := seq(|checkers|, k requires 0 <= k < |checkers| => checkers[k](spec));
    FlattenAt(xss, k, j);
  }

  /**
   * `CanaryJob.Run` up to the report: `None` when the secrets cannot be loaded (no checker
   * runs and nothing is reported), otherwise the concatenated results of every checker on the
   * templated spec.
   */
  method Run(namespace: string, spec: CanarySpec, resolve: (string, Value) -> Resolution,
             checkers: seq<CanarySpec -> seq<CheckResult>>)
    returns (report: Option<seq<CheckResult>>)
    ensures ResolveEnv(namespace, spec.env, resolve).EnvError? ==> report == None
    ensures ResolveEnv(namespace, spec.env, resolve).EnvValues? ==>
              report == Some(Collect(checkers, TemplateSpec(ResolveEnv(namespace, spec.env, resolve).values, spec)))
  {
    var resolved, err := LoadSecrets(namespace, spec, resolve);
    if err.Some? {
      return None;
    }
    var results: seq<CheckResult> := [];
    ghost var xss := seq(|checkers|, k requires 0 <= k < |checkers| => checkers[k](resolved));
    for k := 0 to |checkers|
      invariant results == Flatten(xss[..k])
    {
      assert xss[..k + 1] == xss[..k] + [checkers[k](resolved)];
      FlattenAppend(xss[..k], checkers[k](resolved));
      results := results + checkers[k](resolved);
    }
    assert xss[..|checkers|] == xss;
    return Some(results);
  }
}
