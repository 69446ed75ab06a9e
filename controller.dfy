/**
 * The canary reconciler: the table of periodic jobs, the set of identities already
 * scheduled once, the resource store it reads canaries from and writes statuses back to, and
 * the two entry points the source drives it through: `Reconcile` on every change notification
 * and `Report` when a run completes.  Each method is specified by a function of the state
 * before the call (`ReconcileSpec`, `ReportSpec`); the properties the controller promises are
 * lemmas about those functions.
 */
module Controllers {

  import opened Wrappers
  import opened Strings
  import Api
  import opened Templater
  import Job

  /** A canary's namespace and name. */
  datatype Identity = Identity(namespace: string, name: string)

  datatype Verdict = Passed | Failed

  /** The status subresource: every time is a reading of the clock, `None` where Go has a nil pointer. */
  datatype CanaryStatus = CanaryStatus(
    observedGeneration: int,
    lastCheck: Option<int>,
    lastTransitionedTime: Option<int>,
    status: Option<Verdict>)

  /** A canary as the store holds it. */
  datatype Canary = Canary(id: Identity, generation: int, spec: CanarySpec, status: CanaryStatus)

  /** One entry of the cron table: its id, the canary the job runs (as it was when scheduled) and the schedule. */
  datatype CronEntry = CronEntry(entryId: nat, job: Identity, schedule: string, check: Canary)

  /** An event given to the event recorder. */
  datatype Event = Event(involved: Identity, eventType: string, reason: string, message: string)

  /**
   * Everything the reconciler changes: the store, the observed identities, the cron table and
   * its last assigned id, and the logs of status patches attempted, immediate runs started and
   * events emitted.
   */
  datatype State = State(
    store: map<Identity, Canary>,
    observed: set<Identity>,
    entries: seq<CronEntry>,
    nextId: nat,
    patches: seq<Canary>,
    started: seq<Canary>,
    events: seq<Event>)

  /** The store is keyed by each canary's own identity, and cron ids increase along the table up to the last one assigned. */
  predicate ValidState(s: State)
  {
    && (forall k :: k in s.store ==> s.store[k].id == k)
    && IdsIncreasing(s.entries, s.nextId)
  }

  predicate IdsIncreasing(es: seq<CronEntry>, bound: nat)
  {
    && (forall i :: 0 <= i < |es| ==> es[i].entryId <= bound)
    && (forall i, j :: 0 <= i < j < |es| ==> es[i].entryId < es[j].entryId)
  }

  // ---------------------------------------------------------------- the cron table

  /** The invariant the reconciler is meant to keep: at most one job per identity. */
  predicate UniqueJobs(es: seq<CronEntry>)
  {
    forall i, j :: 0 <= i < j < |es| ==> es[i].job != es[j].job
  }

  /** The entries that run the canary `id`, in table order. */
  function EntriesFor(es: seq<CronEntry>, id: Identity): seq<CronEntry>
  {
    if |es| == 0 then []
    else EntriesFor(es[..|es| - 1], id) + (if es[|es| - 1].job == id then [es[|es| - 1]] else [])
  }

  lemma {:induction false} EntriesForConcat(a: seq<CronEntry>, b: seq<CronEntry>, id: Identity)
    ensures EntriesFor(a + b, id) == EntriesFor(a, id) + EntriesFor(b, id)
  {
    if |b| > 0 {
      var n := |b| - 1;
      assert (a + b)[..|a| + n] == a + b[..n];
      EntriesForConcat(a, b[..n], id);
    } else {
      assert a + b == a;
    }
  }

  lemma {:induction false} EntriesForNone(es: seq<CronEntry>, id: Identity)
    requires forall k :: 0 <= k < |es| ==> es[k].job != id
    ensures EntriesFor(es, id) == []
  {
    if |es| > 0 {
      EntriesForNone(es[..|es| - 1], id);
    }
  }

  /** The position of the first entry for `id`, `|es|` when there is none. */
  function FirstEntry(es: seq<CronEntry>, id: Identity): (k: nat)
    ensures k <= |es|
    ensures forall j :: 0 <= j < k ==> es[j].job != id
    ensures k < |es| ==> es[k].job == id
  {
    if |es| == 0 then 0
    else if es[0].job == id then 0
    else 1 + FirstEntry(es[1..], id)
  }

  /** The table after the source's scan: the first entry for `id`, if any, removed. */
  function RemoveFirst(es: seq<CronEntry>, id: Identity): (r: seq<CronEntry>)
    ensures forall e :: e in r ==> e in es
    ensures (forall j :: 0 <= j < |es| ==> es[j].job != id) ==> r == es
    ensures (exists j :: 0 <= j < |es| && es[j].job == id) ==> |r| == |es| - 1
  {
    var k := FirstEntry(es, id);
    if k < |es| then es[..k] + es[k + 1..] else es
  }

  /** Removing the first entry for `id` leaves the entries of every other identity as they were. */
  lemma RemoveFirstOthers(es: seq<CronEntry>, id: Identity, other: Identity)
    requires other != id
    ensures EntriesFor(RemoveFirst(es, id), other) == EntriesFor(es, other)
  {
    var k := FirstEntry(es, id);
    if k < |es| {
      assert es == es[..k] + [es[k]] + es[k + 1..];
      EntriesForConcat(es[..k] + [es[k]], es[k + 1..], other);
      EntriesForConcat(es[..k], [es[k]], other);
      EntriesForConcat(es[..k], es[k + 1..], other);
      assert EntriesFor([es[k]], other) == [] by {
        assert [es[k]][..0] == [];
      }
    }
  }

  /** With at most one entry per identity, removing the first one for `id` removes all of them and keeps the invariant. */
  lemma RemoveFirstUnique(es: seq<CronEntry>, id: Identity)
    requires UniqueJobs(es)
    ensures UniqueJobs(RemoveFirst(es, id))
    ensures EntriesFor(RemoveFirst(es, id), id) == []
  {
    var r := RemoveFirst(es, id);
    var k := FirstEntry(es, id);
    if k < |es| {
      assert forall i :: 0 <= i < |r| ==> r[i] == if i < k then es[i] else es[i + 1];
      assert forall i :: 0 <= i < |r| ==> r[i].job != id;
    } else {
      assert forall i :: 0 <= i < |r| ==> r[i].job != id;
    }
    EntriesForNone(r, id);
  }

  /** Appending an entry for an identity with no entry keeps the invariant and makes it that identity's only entry. */
  lemma AppendUnique(es: seq<CronEntry>, e: CronEntry)
    requires UniqueJobs(es) && EntriesFor(es, e.job) == []
    ensures UniqueJobs(es + [e])
    ensures EntriesFor(es + [e], e.job) == [e]
  {
    forall i | 0 <= i < |es| ensures es[i].job != e.job {
      if es[i].job == e.job {
        EntriesForMember(es, e.job, i);
      }
    }
    assert (es + [e])[..|es|] == es;
  }

  lemma {:induction false} EntriesForMember(es: seq<CronEntry>, id: Identity, i: nat)
    requires i < |es| && es[i].job == id
    ensures EntriesFor(es, id) != []
  {
    var n := |es| - 1;
    if i < n {
      EntriesForMember(es[..n], id, i);
    }
  }

  // ---------------------------------------------------------------- reconciliation

  /** The `@every Ns` schedule for an interval of `interval` seconds. */
  function EverySchedule(interval: nat): (r: string)
    ensures |r| >= 9 && r[..7] == "@every " && r[|r| - 1] == 's'
  {
    "@every " + Decimal(interval) + "s"
  }

  /** The number of seconds an `@every Ns` schedule names, if it has that form. */
  function EverySeconds(schedule: string): Option<nat>
  {
    if |schedule| >= 9 && schedule[..7] == "@every " && schedule[|schedule| - 1] == 's'
       && forall i :: 7 <= i < |schedule| - 1 ==> IsDigit(schedule[i])
    then
      var digits := schedule[7..|schedule| - 1];
      assert forall i :: 0 <= i < |digits| ==> IsDigit(digits[i]) by {
        forall i | 0 <= i < |digits| ensures IsDigit(digits[i]) {
          assert digits[i] == schedule[7 + i];
        }
      }
      Some(ParseDecimal(digits))
    else None
  }

  /** The schedule the reconciler registers names exactly the canary's interval. */
  lemma EveryScheduleRoundTrip(interval: nat)
    ensures EverySeconds(EverySchedule(interval)) == Some(interval)
  {
    var s := EverySchedule(interval);
    var d := Decimal(interval);
    assert s[..7] == "@every ";
    assert s[7..|s| - 1] == d;
    forall i | 7 <= i < |s| - 1 ensures IsDigit(s[i]) {
      assert s[i] == d[i - 7];
    }
    DecimalRoundTrip(interval);
  }

  /** The namespace and name filters: an empty filter lets everything through. */
  predicate Included(includeNamespace: string, includeCheck: string, req: Identity)
    ensures includeNamespace == "" && includeCheck == "" ==> Included(includeNamespace, includeCheck, req)
    ensures Included(includeNamespace, includeCheck, req) && includeNamespace != "" ==> req.namespace == includeNamespace
    ensures Included(includeNamespace, includeCheck, req) && includeCheck != "" ==> req.name == includeCheck
  {
    && (includeNamespace == "" || includeNamespace == req.namespace)
    && (includeCheck == "" || includeCheck == req.name)
  }

  /** `Reconcile` returns without doing anything. */
  predicate Skipped(s: State, includeNamespace: string, includeCheck: string, req: Identity)
    ensures !Skipped(s, includeNamespace, includeCheck, req) ==> req in s.store
    ensures req in s.store && req !in s.observed && Included(includeNamespace, includeCheck, req) ==>
              !Skipped(s, includeNamespace, includeCheck, req)
    ensures (&& req in s.store && s.store[req].status.observedGeneration != s.store[req].generation
             && Included(includeNamespace, includeCheck, req)) ==>
              !Skipped(s, includeNamespace, includeCheck, req)
  {
    || !Included(includeNamespace, includeCheck, req)
    || req !in s.store
    || (req in s.observed && s.store[req].status.observedGeneration == s.store[req].generation)
  }

  /** `Patch`: the attempt is logged; a successful write replaces the stored canary. */
  function PatchState(s: State, c: Canary, ok: bool): (r: State)
    ensures r.patches == s.patches + [c]
    ensures r.entries == s.entries && r.nextId == s.nextId && r.observed == s.observed
    ensures r.started == s.started && r.events == s.events
    ensures ok ==> c.id in r.store && r.store[c.id] == c
    ensures !ok ==> r.store == s.store
    ensures forall k :: k != c.id ==> (k in r.store <==> k in s.store)
    ensures forall k :: k in s.store && k != c.id ==> r.store[k] == s.store[k]
  {
    s.(patches := s.patches + [c], store := if ok then s.store[c.id := c] else s.store)
  }

  /** The canary with its observed generation brought up to its generation. */
  function Observed(c: Canary): (r: Canary)
    ensures r.status.observedGeneration == r.generation
    ensures r.id == c.id && r.generation == c.generation && r.spec == c.spec
    ensures r.status.lastCheck == c.status.lastCheck && r.status.lastTransitionedTime == c.status.lastTransitionedTime
    ensures r.status.status == c.status.status
  {
    c.(status := c.status.(observedGeneration := c.generation))
  }

  /**
   * `Reconcile(req)`.  `accepts` is the cron library's verdict on a schedule string;
   * `patchOk` whether the status write succeeds.
   */
  function ReconcileSpec(s: State, includeNamespace: string, includeCheck: string, req: Identity,
                         accepts: string -> bool, patchOk: bool): (r: State)
    ensures r.events == s.events
    ensures r.nextId >= s.nextId && s.observed <= r.observed
    ensures s.store.Keys <= r.store.Keys
    ensures |r.started| <= |s.started| + 1 && |r.patches| <= |s.patches| + 1
  {
    if Skipped(s, includeNamespace, includeCheck, req) then s
    else
      var check := s.store[req];
      var unscheduled := s.(observed := s.observed + {req}, entries := RemoveFirst(s.entries, req));
      PatchState(ScheduleState(unscheduled, req, check, req in s.observed, accepts), Observed(check), patchOk)
  }

  /**
   * The scheduling step of `Reconcile` for `check`: with a positive interval, an immediate run
   * unless the identity was observed before (`run`), and an `@every` job the cron library accepts.
   */
  function ScheduleState(s: State, req: Identity, check: Canary, run: bool, accepts: string -> bool): (r: State)
    ensures r.store == s.store && r.observed == s.observed && r.patches == s.patches && r.events == s.events
    ensures check.spec.interval <= 0 ==> r == s
    ensures r.started == s.started + (if check.spec.interval > 0 && !run then [check] else [])
    ensures check.spec.interval > 0 && accepts(EverySchedule(check.spec.interval)) ==>
              r.entries == s.entries + [CronEntry(s.nextId + 1, req, EverySchedule(check.spec.interval), check)]
              && r.nextId == s.nextId + 1
    ensures !(check.spec.interval > 0 && accepts(EverySchedule(check.spec.interval))) ==>
              r.entries == s.entries && r.nextId == s.nextId
  {
    var interval := check.spec.interval;
    var add := interval > 0 && accepts(EverySchedule(interval));
    s.(
      started := if interval > 0 && !run then s.started + [check] else s.started,
      entries := if add then s.entries + [CronEntry(s.nextId + 1, req, EverySchedule(interval), check)] else s.entries,
      nextId := if add then s.nextId + 1 else s.nextId)
  }

  /** Filtered out, not found, or already observed at the current generation: nothing changes and no patch is issued. */
  lemma ReconcileSkipsUnchanged(s: State, includeNamespace: string, includeCheck: string, req: Identity,
                                accepts: string -> bool, patchOk: bool)
    requires Skipped(s, includeNamespace, includeCheck, req)
    ensures ReconcileSpec(s, includeNamespace, includeCheck, req, accepts, patchOk) == s
  {
  }

  lemma RemoveFirstIds(es: seq<CronEntry>, id: Identity, bound: nat)
    requires IdsIncreasing(es, bound)
    ensures IdsIncreasing(RemoveFirst(es, id), bound)
  {
    var r := RemoveFirst(es, id);
    var k := FirstEntry(es, id);
    if k < |es| {
      assert forall i :: 0 <= i < |r| ==> r[i] == if i < k then es[i] else es[i + 1];
    }
  }

  /** The cron table and its last id after a reconcile that is not skipped. */
  lemma ReconcileEntries(s: State, includeNamespace: string, includeCheck: string, req: Identity,
                         accepts: string -> bool, patchOk: bool)
    requires !Skipped(s, includeNamespace, includeCheck, req)
    ensures var r := ReconcileSpec(s, includeNamespace, includeCheck, req, accepts, patchOk);
      var check := s.store[req];
      var add := check.spec.interval > 0 && accepts(EverySchedule(check.spec.interval));
      && r.entries == (if add then RemoveFirst(s.entries, req) + [CronEntry(s.nextId + 1, req, EverySchedule(check.spec.interval), check)]
                       else RemoveFirst(s.entries, req))
      && r.nextId == (if add then s.nextId + 1 else s.nextId)
  {
  }

  /** Reconciliation keeps the store keyed by identity and the cron ids increasing. */
  lemma ReconcileKeepsValid(s: State, includeNamespace: string, includeCheck: string, req: Identity,
                            accepts: string -> bool, patchOk: bool)
    requires ValidState(s)
    ensures ValidState(ReconcileSpec(s, includeNamespace, includeCheck, req, accepts, patchOk))
  {
    if !Skipped(s, includeNamespace, includeCheck, req) {
      RemoveFirstIds(s.entries, req, s.nextId);
      ReconcileEntries(s, includeNamespace, includeCheck, req, accepts, patchOk);
      var r := ReconcileSpec(s, includeNamespace, includeCheck, req, accepts, patchOk);
      assert Observed(s.store[req]).id == req;
      assert IdsIncreasing(r.entries, r.nextId);
    }
  }

  /**
   * With at most one job per identity before, there is at most one after; the reconciled
   * identity has no job when its interval is not positive (or its schedule is refused) and
   * exactly one `@every` job otherwise; every other identity keeps exactly its jobs.
   */
  lemma ReconcileSchedules(s: State, includeNamespace: string, includeCheck: string, req: Identity,
                           accepts: string -> bool, patchOk: bool)
    requires UniqueJobs(s.entries)
    requires !Skipped(s, includeNamespace, includeCheck, req)
    ensures var r := ReconcileSpec(s, includeNamespace, includeCheck, req, accepts, patchOk);
      && UniqueJobs(r.entries)
      && (forall other :: other != req ==> EntriesFor(r.entries, other) == EntriesFor(s.entries, other))
      && (s.store[req].spec.interval <= 0 ==> EntriesFor(r.entries, req) == [])
      && (s.store[req].spec.interval > 0 && !accepts(EverySchedule(s.store[req].spec.interval)) ==>
            EntriesFor(r.entries, req) == [])
      && (s.store[req].spec.interval > 0 && accepts(EverySchedule(s.store[req].spec.interval)) ==>
            EntriesFor(r.entries, req)
              == [CronEntry(s.nextId + 1, req, EverySchedule(s.store[req].spec.interval), s.store[req])])
  {
    var r := ReconcileSpec(s, includeNamespace, includeCheck, req, accepts, patchOk);
    var check := s.store[req];
    var removed := RemoveFirst(s.entries, req);
    ReconcileEntries(s, includeNamespace, includeCheck, req, accepts, patchOk);
    RemoveFirstUnique(s.entries, req);
    forall other | other != req
      ensures EntriesFor(r.entries, other) == EntriesFor(s.entries, other)
    {
      RemoveFirstOthers(s.entries, req, other);
      if r.entries != removed {
        var e := CronEntry(s.nextId + 1, req, EverySchedule(check.spec.interval), check);
        EntriesForConcat(removed, [e], other);
        assert EntriesFor([e], other) == [] by {
          assert [e][..0] == [];
        }
      }
    }
    if check.spec.interval > 0 && accepts(EverySchedule(check.spec.interval)) {
      AppendUnique(removed, CronEntry(s.nextId + 1, req, EverySchedule(check.spec.interval), check));
    }
  }

  /**
   * On the path that is not skipped: an immediate run of the fetched canary is started exactly when
   * its interval is positive and the identity had not been observed before; afterwards the identity is
   * observed, and one patch is issued, carrying the canary with observed generation = generation.
   */
  lemma ReconcileObserves(s: State, includeNamespace: string, includeCheck: string, req: Identity,
                          accepts: string -> bool, patchOk: bool)
    requires ValidState(s)
    requires !Skipped(s, includeNamespace, includeCheck, req)
    ensures var r := ReconcileSpec(s, includeNamespace, includeCheck, req, accepts, patchOk);
      && (r.started == s.started + [s.store[req]] <==> s.store[req].spec.interval > 0 && req !in s.observed)
      && (r.started == s.started <==> !(s.store[req].spec.interval > 0 && req !in s.observed))
      && req in r.observed && r.observed == s.observed + {req}
      && r.patches == s.patches + [Observed(s.store[req])]
      && r.patches[|r.patches| - 1].status.observedGeneration == s.store[req].generation
      && r.events == s.events
      && r.store == (if patchOk then s.store[req := Observed(s.store[req])] else s.store)
  {
    var r := ReconcileSpec(s, includeNamespace, includeCheck, req, accepts, patchOk);
    assert |s.started + [s.store[req]]| != |s.started|;
    assert Observed(s.store[req]).id == req;
  }

  /** Delivering the same notification again after a successful reconcile schedules nothing more. */
  lemma ReconcileIdempotent(s: State, includeNamespace: string, includeCheck: string, req: Identity,
                            accepts: string -> bool, accepts': string -> bool, patchOk': bool)
    requires ValidState(s)
    ensures var r := ReconcileSpec(s, includeNamespace, includeCheck, req, accepts, true);
      ReconcileSpec(r, includeNamespace, includeCheck, req, accepts', patchOk') == r
  {
    var r := ReconcileSpec(s, includeNamespace, includeCheck, req, accepts, true);
    if !Skipped(s, includeNamespace, includeCheck, req) {
      assert Observed(s.store[req]).id == req;
      assert r.store[req] == Observed(s.store[req]);
      assert Skipped(r, includeNamespace, includeCheck, req);
    }
  }

  // ---------------------------------------------------------------- reporting

  /** A result is a transition when the cache's previous head has a status that disagrees with it. */
  predicate IsTransition(result: Api.CheckResult, previous: Option<Api.Check>)
    ensures IsTransition(result, previous) ==> previous.Some? && |previous.value.statuses| > 0
  {
    previous.Some? && |previous.value.statuses| > 0 && previous.value.statuses[0].status != result.pass
  }

  /** Against a non-empty history, exactly one of a result and its opposite verdict is a transition. */
  lemma TransitionFlip(result: Api.CheckResult, previous: Option<Api.Check>)
    requires previous.Some? && |previous.value.statuses| > 0
    ensures IsTransition(result, previous) != IsTransition(result.(pass := !result.pass), previous)
  {
  }

  /** All results pass. */
  predicate AllPass(results: seq<Api.CheckResult>)
  {
    if |results| == 0 then true
    else AllPass(results[..|results| - 1]) && results[|results| - 1].pass
  }

  /** Some result is a transition; `head(i)` is the history head the cache returned for result `i`. */
  predicate AnyTransition(results: seq<Api.CheckResult>, head: nat -> Option<Api.Check>)
  {
    if |results| == 0 then false
    else AnyTransition(results[..|results| - 1], head) || IsTransition(results[|results| - 1], head(|results| - 1))
  }

  /** The failing results, in order. */
  function Failing(results: seq<Api.CheckResult>): seq<Api.CheckResult>
  {
    if |results| == 0 then []
    else Failing(results[..|results| - 1]) + (if results[|results| - 1].pass then [] else [results[|results| - 1]])
  }

  /** The warning the recorder gets for a failing result. */
  function Warning(involved: Identity, result: Api.CheckResult): (r: Event)
    ensures r.involved == involved && r.eventType == "Warning" && r.reason == "Failed"
    ensures |result.checkType| <= |r.message| && r.message[..|result.checkType|] == result.checkType
  {
    Event(involved, "Warning", "Failed", result.checkType + "-" + result.endpoint + ": " + result.message)
  }

  /** One warning per failing result, in order. */
  function Warnings(involved: Identity, results: seq<Api.CheckResult>): (r: seq<Event>)
    ensures |r| == |Failing(results)|
    ensures forall i :: 0 <= i < |r| ==> r[i] == Warning(involved, Failing(results)[i])
  {
    seq(|Failing(results)|, i requires 0 <= i < |Failing(results)| => Warning(involved, Failing(results)[i]))
  }

  /** One more result adds its warning, if it fails, at the end. */
  lemma WarningsSnoc(involved: Identity, results: seq<Api.CheckResult>, i: nat)
    requires i < |results|
    ensures Warnings(involved, results[..i + 1])
         == Warnings(involved, results[..i]) + (if results[i].pass then [] else [Warning(involved, results[i])])
  {
    assert results[..i + 1][..i] == results[..i];
    var f := Failing(results[..i + 1]);
    assert f == Failing(results[..i]) + (if results[i].pass then [] else [results[i]]);
  }

  /**
   * The status `Report` writes.  `clock(0)` is the reading taken for the last check time,
   * `clock(i + 1)` the one taken in iteration `i`.
   */
  function FoldStatus(st: CanaryStatus, results: seq<Api.CheckResult>, head: nat -> Option<Api.Check>,
                      clock: nat -> int): (r: CanaryStatus)
    ensures r.observedGeneration == st.observedGeneration
    ensures r.lastCheck.Some? && r.status.Some?
    ensures r.lastTransitionedTime.None? ==> st.lastTransitionedTime.None?
  {
    st.(
      lastCheck := Some(clock(0)),
      lastTransitionedTime :=
        if AnyTransition(results, head) then Some(clock(|results|)) else st.lastTransitionedTime,
      status := Some(if AllPass(results) then Passed else Failed))
  }

  /** `Report(key, results)`. */
  function ReportSpec(s: State, key: Identity, results: seq<Api.CheckResult>, head: nat -> Option<Api.Check>,
                      clock: nat -> int, patchOk: bool): (r: State)
    ensures r.entries == s.entries && r.nextId == s.nextId && r.observed == s.observed && r.started == s.started
    ensures s.events <= r.events
    ensures s.store.Keys <= r.store.Keys
  {
    if key !in s.store then s
    else
      var check := s.store[key];
      PatchState(s.(events := s.events + Warnings(check.id, results)),
                 check.(status := FoldStatus(check.status, results, head, clock)), patchOk)
  }

  lemma {:induction false} AllPassIff(results: seq<Api.CheckResult>)
    ensures AllPass(results) <==> forall i :: 0 <= i < |results| ==> results[i].pass
  {
    if |results| > 0 {
      var n := |results| - 1;
      AllPassIff(results[..n]);
      assert forall i :: 0 <= i < n ==> results[..n][i] == results[i];
    }
  }

  lemma {:induction false} AnyTransitionIff(results: seq<Api.CheckResult>, head: nat -> Option<Api.Check>)
    ensures AnyTransition(results, head) <==> exists i :: 0 <= i < |results| && IsTransition(results[i], head(i))
  {
    if |results| > 0 {
      var n := |results| - 1;
      AnyTransitionIff(results[..n], head);
      assert forall i :: 0 <= i < n ==> results[..n][i] == results[i];
    }
  }

  /** The failing results are the failing elements of the batch, each as often as it occurs there. */
  lemma {:induction false} FailingCounts(results: seq<Api.CheckResult>)
    ensures forall x: Api.CheckResult :: x.pass ==> multiset(Failing(results))[x] == 0
    ensures forall x: Api.CheckResult :: !x.pass ==> multiset(Failing(results))[x] == multiset(results)[x]
  {
    if |results| > 0 {
      var n := |results| - 1;
      FailingCounts(results[..n]);
      assert results == results[..n] + [results[n]];
      assert multiset(results) == multiset(results[..n]) + multiset{results[n]};
      assert multiset(Failing(results))
          == multiset(Failing(results[..n])) + (if results[n].pass then multiset{} else multiset{results[n]});
    }
  }

  /** `Report` on a batch: the aggregate verdict, the transition time, the check time and the warnings. */
  lemma ReportFolds(s: State, key: Identity, results: seq<Api.CheckResult>, head: nat -> Option<Api.Check>,
                    clock: nat -> int, patchOk: bool)
    requires ValidState(s) && key in s.store
    ensures var r := ReportSpec(s, key, results, head, clock, patchOk);
      && |r.patches| == |s.patches| + 1 && r.patches[..|s.patches|] == s.patches
      && var st := r.patches[|s.patches|].status;
      && r.patches[|s.patches|] == s.store[key].(status := st)
      && (st.status == Some(Passed) <==> forall i :: 0 <= i < |results| ==> results[i].pass)
      && (st.status == Some(Failed) <==> exists i :: 0 <= i < |results| && !results[i].pass)
      && st.lastCheck == Some(clock(0))
      && ((exists i :: 0 <= i < |results| && IsTransition(results[i], head(i))) ==>
            st.lastTransitionedTime == Some(clock(|results|)))
      && (!(exists i :: 0 <= i < |results| && IsTransition(results[i], head(i))) ==>
            st.lastTransitionedTime == s.store[key].status.lastTransitionedTime)
      && st.observedGeneration == s.store[key].status.observedGeneration
      && r.events == s.events + Warnings(key, results)
      && r.entries == s.entries && r.observed == s.observed && r.started == s.started
  {
    AllPassIff(results);
    AnyTransitionIff(results, head);
    assert s.store[key].id == key;
  }

  /** A canary that has vanished from the store is not reported on. */
  lemma ReportMissingUnchanged(s: State, key: Identity, results: seq<Api.CheckResult>, head: nat -> Option<Api.Check>,
                               clock: nat -> int, patchOk: bool)
    requires key !in s.store
    ensures ReportSpec(s, key, results, head, clock, patchOk) == s
  {
  }

  /** An empty batch passes vacuously; a batch with one failure fails. */
  lemma AggregateExamples(r: Api.CheckResult)
    ensures AllPass([])
    ensures !AllPass([r.(pass := true), r.(pass := true), r.(pass := false)])
  {
    var rs := [r.(pass := true), r.(pass := true), r.(pass := false)];
    AllPassIff(rs);
  }

  /** A failure after a passing head is a transition; a second failure after that failure is not. */
  lemma TransitionExamples(c: Api.Check, st: Api.CheckStatus, r: Api.CheckResult)
    ensures IsTransition(r.(pass := false), Some(c.(statuses := [st.(status := true)])))
    ensures !IsTransition(r.(pass := false), Some(c.(statuses := [st.(status := false)])))
    ensures !IsTransition(r, None)
    ensures !IsTransition(r, Some(c.(statuses := [])))
  {
  }

  /** Once some result of a batch is a transition, every longer batch with it has one too. */
  lemma {:induction false} TransitionSticky(results: seq<Api.CheckResult>, head: nat -> Option<Api.Check>, i: nat, j: nat)
    requires i <= j <= |results|
    requires AnyTransition(results[..i], head)
    ensures AnyTransition(results[..j], head)
    decreases j - i
  {
    if i < j {
      assert results[..i + 1][..i] == results[..i];
      TransitionSticky(results, head, i + 1, j);
    }
  }

  // ---------------------------------------------------------------- sequences of deliveries

  /**
   * What happens to the reconciler's world: a canary is created or edited in the store, or
   * deleted from it, by someone else; a change notification arrives; a finished run reports its
   * results.
   */
  datatype Delivery =
    | Written(canary: Canary)
    | Deleted(id: Identity)
    | Notified(req: Identity, accepts: string -> bool, patchOk: bool)
    | Completed(key: Identity, results: seq<Api.CheckResult>, head: nat -> Option<Api.Check>,
                clock: nat -> int, patchOk: bool)

  function Deliver(s: State, includeNamespace: string, includeCheck: string, d: Delivery): State
  {
    match d
    case Written(c) => s.(store := s.store[c.id := c])
    case Deleted(id) => s.(store := s.store - {id})
    case Notified(req, accepts, patchOk) => ReconcileSpec(s, includeNamespace, includeCheck, req, accepts, patchOk)
    case Completed(key, results, head, clock, patchOk) => ReportSpec(s, key, results, head, clock, patchOk)
  }

  function DeliverAll(s: State, includeNamespace: string, includeCheck: string, ds: seq<Delivery>): State
  {
    if |ds| == 0 then s
    else Deliver(DeliverAll(s, includeNamespace, includeCheck, ds[..|ds| - 1]), includeNamespace, includeCheck, ds[|ds| - 1])
  }

  /**
   * Starting from a table with at most one job per identity, no sequence of store edits,
   * notifications and reports creates a second one.
   */
  lemma {:induction false} DeliverAllKeepsUnique(s: State, includeNamespace: string, includeCheck: string, ds: seq<Delivery>)
    requires UniqueJobs(s.entries)
    ensures UniqueJobs(DeliverAll(s, includeNamespace, includeCheck, ds).entries)
  {
    if |ds| > 0 {
      var before := DeliverAll(s, includeNamespace, includeCheck, ds[..|ds| - 1]);
      DeliverAllKeepsUnique(s, includeNamespace, includeCheck, ds[..|ds| - 1]);
      match ds[|ds| - 1]
      case Written(_) =>
      case Deleted(_) =>
      case Notified(req, accepts, patchOk) =>
        if !Skipped(before, includeNamespace, includeCheck, req) {
          ReconcileSchedules(before, includeNamespace, includeCheck, req, accepts, patchOk);
        }
      case Completed(key, results, head, clock, patchOk) =>
    }
  }

  /**
   * First observation of a canary with a positive interval: one `@every` job and one immediate
   * run are started, both for the canary as fetched, and the job's schedule names its interval.
   */
  lemma ReconcileFirstObservation(s: State, includeNamespace: string, includeCheck: string, req: Identity,
                                  accepts: string -> bool, patchOk: bool)
    requires ValidState(s) && UniqueJobs(s.entries)
    requires Included(includeNamespace, includeCheck, req) && req in s.store && req !in s.observed
    requires s.store[req].spec.interval > 0 && accepts(EverySchedule(s.store[req].spec.interval))
    ensures var r := ReconcileSpec(s, includeNamespace, includeCheck, req, accepts, patchOk);
      && |EntriesFor(r.entries, req)| == 1
      && EntriesFor(r.entries, req)[0].check == s.store[req]
      && EverySeconds(EntriesFor(r.entries, req)[0].schedule) == Some(s.store[req].spec.interval)
      && r.started == s.started + [s.store[req]]
  {
    ReconcileSchedules(s, includeNamespace, includeCheck, req, accepts, patchOk);
    ReconcileObserves(s, includeNamespace, includeCheck, req, accepts, patchOk);
    EveryScheduleRoundTrip(s.store[req].spec.interval);
  }

  /**
   * The loop of `Report` over one batch: `head(i)` is what the result cache returned for result
   * `i`, `clock(0)` the reading for the last check time and `clock(i + 1)` the one iteration `i`
   * takes.  Returns the new status and the warnings to record, in order.
   */
  method Fold(st: CanaryStatus, involved: Identity, results: seq<Api.CheckResult>,
              head: nat -> Option<Api.Check>, clock: nat -> int)
    returns (status: CanaryStatus, warnings: seq<Event>)
    ensures status == FoldStatus(st, results, head, clock)
    ensures warnings == Warnings(involved, results)
  {
    status := st.(lastCheck := Some(clock(0)));
    warnings := [];
    var transitioned := false;
    var pass := true;
    var i := 0;
    while i < |results|
      invariant 0 <= i <= |results|
      invariant transitioned == AnyTransition(results[..i], head)
      invariant pass == AllPass(results[..i])
      invariant warnings == Warnings(involved, results[..i])
      invariant status == st.(
        lastCheck := Some(clock(0)),
        lastTransitionedTime := if transitioned then Some(clock(i)) else st.lastTransitionedTime)
    {
      var result := results[i];
      assert results[..i + 1][..i] == results[..i];
      WarningsSnoc(involved, results, i);
      var lastResult := head(i);
      if lastResult.Some? && |lastResult.value.statuses| > 0 && lastResult.value.statuses[0].status != result.pass {
        transitioned := true;
      }
      if !result.pass {
        warnings := warnings + [Warning(involved, result)];
      }
      if transitioned {
        status := status.(lastTransitionedTime := Some(clock(i + 1)));
      }
      pass := pass && result.pass;
      i := i + 1;
    }
    assert results[..i] == results;
    status := status.(status := Some(if pass then Passed else Failed));
  }

  // ---------------------------------------------------------------- the reconciler object

  class CanaryReconciler {
    const includeNamespace: string
    const includeCheck: string
    var store: map<Identity, Canary>
    var observed: set<Identity>
    var entries: seq<CronEntry>
    var nextId: nat
    var patches: seq<Canary>
    var started: seq<Canary>
    var events: seq<Event>

    function Snapshot(): State
      reads this
    {
      State(store, observed, entries, nextId, patches, started, events)
    }

    ghost predicate Valid()
      reads this
    {
      ValidState(Snapshot())
    }

    /** A reconciler with empty table, logs and observed set over the given store. */
    constructor (includeNamespace: string, includeCheck: string, store: map<Identity, Canary>)
      requires forall k :: k in store ==> store[k].id == k
      ensures Valid()
      ensures this.includeNamespace == includeNamespace && this.includeCheck == includeCheck
      ensures Snapshot() == State(store, {}, [], 0, [], [], [])
    {
      this.includeNamespace := includeNamespace;
      this.includeCheck := includeCheck;
      this.store := store;
      observed := {};
      entries := [];
      nextId := 0;
      patches := [];
      started := [];
      events := [];
    }

    /** `Patch`: issue the status write. */
    method Patch(c: Canary, ok: bool)
      modifies this
      ensures Snapshot() == PatchState(old(Snapshot()), c, ok)
    {
      patches := patches + [c];
      if ok {
        store := store[c.id := c];
      }
    }

    /** The scan of the cron table that removes the first job for `req`. */
    method Unschedule(req: Identity)
      modifies this
      ensures Snapshot() == old(Snapshot()).(entries := RemoveFirst(old(entries), req))
    {
      var i := 0;
      while i < |entries| && entries[i].job != req
        invariant 0 <= i <= |entries|
        invariant forall k :: 0 <= k < i ==> entries[k].job != req
      {
        i := i + 1;
      }
      FirstEntryIs(entries, req, i);
      if i < |entries| {
        entries := entries[..i] + entries[i + 1..];
      }
    }

    /** The scheduling step: the immediate run and the `@every` job for `check`. */
    method Schedule(req: Identity, check: Canary, run: bool, accepts: string -> bool)
      modifies this
      ensures Snapshot() == ScheduleState(old(Snapshot()), req, check, run, accepts)
    {
      if check.spec.interval > 0 {
        if !run {
          started := started + [check];
        }
        var schedule := EverySchedule(check.spec.interval);
        if accepts(schedule) {
          nextId := nextId + 1;
          entries := entries + [CronEntry(nextId, req, schedule, check)];
        }
      }
    }

    /** `Reconcile(req)`; `notFound` is the store's `Get` failing. */
    method Reconcile(req: Identity, accepts: string -> bool, patchOk: bool) returns (notFound: bool)
      requires Valid()
      modifies this
      ensures Valid()
      ensures notFound == (Included(includeNamespace, includeCheck, req) && req !in old(store))
      ensures Snapshot() == ReconcileSpec(old(Snapshot()), includeNamespace, includeCheck, req, accepts, patchOk)
    {
      ReconcileKeepsValid(Snapshot(), includeNamespace, includeCheck, req, accepts, patchOk);
      if includeNamespace != "" && includeNamespace != req.namespace {
        return false;
      }
      if includeCheck != "" && includeCheck != req.name {
        return false;
      }
      if req !in store {
        return true;
      }
      var check := store[req];
      var run := req in observed;
      if run && check.status.observedGeneration == check.generation {
        return false;
      }
      observed := observed + {req};
      Unschedule(req);
      Schedule(req, check, run, accepts);
      Patch(Observed(check), patchOk);
      notFound := false;
    }

    /** `Report(key, results)`, with the cache's history heads `head` and the clock readings `clock`. */
    method Report(key: Identity, results: seq<Api.CheckResult>, head: nat -> Option<Api.Check>,
                  clock: nat -> int, patchOk: bool)
      requires Valid()
      modifies this
      ensures Valid()
      ensures Snapshot() == ReportSpec(old(Snapshot()), key, results, head, clock, patchOk)
    {
      if key !in store {
        return;
      }
      var check := store[key];
      var status, warnings := Fold(check.status, check.id, results, head, clock);
      events := events + warnings;
      Patch(check.(status := status), patchOk);
    }

    /**
     * `CanaryJob.Run` for the scheduled or immediate job that carries `job`: load the secrets,
     * run the checkers and report; when the secrets cannot be loaded nothing is reported.
     */
    method RunJob(job: Canary, resolve: (string, Value) -> Job.Resolution,
                  checkers: seq<CanarySpec -> seq<Api.CheckResult>>,
                  head: nat -> Option<Api.Check>, clock: nat -> int, patchOk: bool)
      returns (report: Option<seq<Api.CheckResult>>)
      requires Valid()
      modifies this
      ensures Valid()
      ensures var env := Job.ResolveEnv(job.id.namespace, job.spec.env, resolve);
        && (env.EnvError? ==> report == None)
        && (env.EnvValues? ==> report == Some(Job.Collect(checkers, TemplateSpec(env.values, job.spec))))
      ensures report.None? ==> Snapshot() == old(Snapshot())
      ensures report.Some? ==> Snapshot() == ReportSpec(old(Snapshot()), job.id, report.value, head, clock, patchOk)
    {
      report := Job.Run(job.id.namespace, job.spec, resolve, checkers);
      if report.Some? {
        Report(job.id, report.value, head, clock, patchOk);
      }
    }
  }

  /** Lemma used by `Reconcile`: the scan's stopping position is `FirstEntry`. */
  lemma {:induction false} FirstEntryIs(es: seq<CronEntry>, id: Identity, i: nat)
    requires i <= |es| && (forall k :: 0 <= k < i ==> es[k].job != id) && (i < |es| ==> es[i].job == id)
    ensures FirstEntry(es, id) == i
  {
    if i > 0 {
      FirstEntryIs(es[1..], id, i - 1);
    }
  }
}
