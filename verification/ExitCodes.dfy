/** When a run exits 0, 1, 2 or 3. */
module ExitCodes {
  import opened JsonValues
  import opened KernelPrimitives
  import opened Traces
  import opened Evidence
  import opened EnvironmentProperties

  /** Some checkpoint whose id resolves was unreachable on every gateway. */
  ghost predicate SomeUnreachable(k: Kernel, cps: seq<Json>, gateways: seq<string>, fetch: Fetch) {
    exists i :: 0 <= i < |cps| && UnreachableOnAll(k, cps, i, gateways, fetch)
  }

  ghost predicate UnreachableOnAll(k: Kernel, cps: seq<Json>, i: nat, gateways: seq<string>, fetch: Fetch)
    requires i < |cps|
  {
    var id := StrOr(Get(cps[i], TxId), "");
    id in FirstWins(cps) && forall g :: g in gateways ==> Probe(k, FirstWins(cps)[id], g, fetch) == Unreachable
  }

  lemma RollupUnreachable(k: Kernel, cp: Json, gateways: seq<string>, fetch: Fetch)
    ensures Refetch(k, cp, gateways, fetch).rollup == Unreachable
            <==> forall g :: g in gateways ==> Probe(k, cp, g, fetch) == Unreachable
  {
    hide Probe;
    var outcomes := Refetch(k, cp, gateways, fetch).perGateway;
    if Refetch(k, cp, gateways, fetch).rollup == Unreachable {
      forall g | g in gateways
        ensures Probe(k, cp, g, fetch) == Unreachable
      {
        var i :| 0 <= i < |gateways| && gateways[i] == g;
        assert outcomes[i] in outcomes;
      }
    }
  }

  lemma UnreachableViews(k: Kernel, cps: seq<Json>, env: Environment)
    requires env.gateways != [] && env.fetch.Some?
    ensures (exists v :: v in Views(k, cps, env) && UnreachableView(v))
            <==> SomeUnreachable(k, cps, env.gateways, env.fetch.value)
  {
    hide Refetch, FirstWins, CheckpointSigned, RootCommitted, CheckpointNotes, Probe;
    var views := Views(k, cps, env);
    forall i | 0 <= i < |cps|
      ensures UnreachableView(views[i]) <==> UnreachableOnAll(k, cps, i, env.gateways, env.fetch.value)
    {
      var id := StrOr(Get(cps[i], TxId), "");
      if id in FirstWins(cps) {
        RollupUnreachable(k, FirstWins(cps)[id], env.gateways, env.fetch.value);
      }
    }
    if i :| 0 <= i < |cps| && UnreachableOnAll(k, cps, i, env.gateways, env.fetch.value) {
      assert views[i] in views;
    }
  }

  /** Gateways were asked for, and there is no fetch at all or some resolvable checkpoint went unanswered. */
  ghost predicate NetworkGap(k: Kernel, cps: seq<Json>, env: Environment) {
    env.gateways != [] && (env.fetch.None? || SomeUnreachable(k, cps, env.gateways, env.fetch.value))
  }

  lemma TraceGap(k: Kernel, cps: seq<Json>, env: Environment)
    ensures GatewayUnavailable(Views(k, cps, env), env) <==> NetworkGap(k, cps, env)
  {
    hide Views, SomeUnreachable, UnreachableView;
    if env.gateways != [] && env.fetch.Some? {
      UnreachableViews(k, cps, env);
    }
  }

  lemma TraceCode(r: BundleResult, events: seq<EventResult>, unavailable: bool, noFetch: bool)
    requires r.events == events && r.status == TraceStatus(r.checkpoints, events, unavailable)
    requires r.notes == (if noFetch then [NoFetchImplementation] else [])
                        + (if r.status == Partial && unavailable then [CouldNotRefetch] else [])
    ensures ExitCode(r) == if AnyFailure(r.checkpoints, events) then 1 else if unavailable then 3 else 0
  {
    hide Contains, AnyFailure;
    if r.status == Partial && unavailable {
      assert r.notes[|r.notes| - 1] == CouldNotRefetch;
      assert CouldNotRefetch in r.notes && Marked(CouldNotRefetch);
    } else {
      assert forall n :: n in r.notes ==> n == NoFetchImplementation;
    }
  }

  /** A wrapper-verified trace exits 1 exactly on a failed checkpoint or event, else 3 exactly on a network gap,
      else 0; one without its two lists exits 2. */
  lemma TraceExitCode(k: Kernel, bundle: Json, env: Environment)
    requires IsTrace(k, bundle)
    ensures var r, cps := BundleVerdict(k, bundle, env), Items(Get(Get(bundle, Body), Checkpoints));
            ExitCode(r) == if !TraceShaped(Get(bundle, Body)) then 2
                           else if AnyFailure(r.checkpoints, r.events) then 1
                           else if NetworkGap(k, cps, env) then 3
                           else 0
  {
    hide BundleVerdict, AnyFailure, GatewayUnavailable, NetworkGap, Views, EventVerdict, FirstWins, IsTrace, Contains,
         TraceStatus;
    TraceBranch(k, bundle, env);
    if TraceShaped(Get(bundle, Body)) {
      var cps, evs := Items(Get(Get(bundle, Body), Checkpoints)), Items(Get(Get(bundle, Body), Events));
      TraceGap(k, cps, env);
      TraceCode(TraceVerdict(k, bundle, env), EventVerdicts(k, evs, FirstWins(cps), env.content),
                GatewayUnavailable(Views(k, cps, env), env), env.gateways != [] && env.fetch.None?);
    }
  }

  lemma MarksPass(notes: seq<Note>)
    ensures (exists n :: n in FromSourceNotes(notes) && Marked(n)) <==> exists n :: n in notes && Marked(n)
  {
    hide Contains;
    var lifted := FromSourceNotes(notes);
    if n :| n in lifted && Marked(n) {
      var i :| 0 <= i < |notes| && lifted[i] == n;
      assert notes[i] in notes && Marked(notes[i]);
    }
    if n :| n in notes && Marked(n) {
      var i :| 0 <= i < |notes| && notes[i] == n;
      assert lifted[i] in lifted && Marked(lifted[i]);
    }
  }

  lemma ExportCode(k: Kernel, bundle: Json, source: BundleResult)
    ensures var r := ExportVerdict(k, bundle, source);
            r.status != Status.Failed && r.status != Malformed ==>
              r.status == source.status && ExitCode(r) == ExitCode(source)
  {
    hide SourceLinked, WellFormedAttestation, AttestationVerdict, Agrees, Summarize, EntriesFor, LastWins, VerdictOf,
         Contains;
    var r := ExportVerdict(k, bundle, source);
    if r.status != Status.Failed && r.status != Malformed {
      MarksPass(source.notes);
      assert r.notes == FromSourceNotes(source.notes);
    }
  }

  /** An export that is not itself failed or malformed exits as its source does. */
  lemma ExportExitsAsSource(k: Kernel, bundle: Json, env: Environment)
    requires Descends(k, bundle)
    ensures var r, source := BundleVerdict(k, bundle, env), BundleVerdict(k, SourceOf(bundle), env);
            r.status != Status.Failed && r.status != Malformed ==>
              r.status == source.status && ExitCode(r) == ExitCode(source)
  {
    hide BundleVerdict, ExportVerdict, Descends, ExitCode;
    ExportBranch(k, bundle, env);
    ExportCode(k, bundle, BundleVerdict(k, SourceOf(bundle), env));
  }

  /** Exports all the way down to a trace, each with its source inline. */
  ghost predicate InlineTrace(k: Kernel, bundle: Json)
    decreases bundle
  {
    IsTrace(k, bundle) || (Descends(k, bundle) && (SourceIsSmaller(bundle); InlineTrace(k, SourceOf(bundle))))
  }

  /** A fully inline bundle never exits 3 offline, at any nesting. */
  lemma {:induction false} OfflineNeverExits3(k: Kernel, bundle: Json, env: Environment)
    requires InlineTrace(k, bundle) && env.gateways == []
    ensures ExitCode(BundleVerdict(k, bundle, env)) != 3
    decreases bundle
  {
    hide BundleVerdict, IsTrace, Descends, AnyFailure;
    if IsTrace(k, bundle) {
      TraceExitCode(k, bundle, env);
    } else {
      DescendsHasSource(k, bundle);
      SourceIsSmaller(bundle);
      OfflineNeverExits3(k, SourceOf(bundle), env);
      ExportExitsAsSource(k, bundle, env);
    }
  }
}
