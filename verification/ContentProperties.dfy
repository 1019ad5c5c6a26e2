/** How disclosed content may and may not influence a result. */
module ContentProperties {
  import opened JsonValues
  import opened KernelPrimitives
  import opened Envelopes
  import opened Traces
  import opened Evidence
  import opened EnvironmentProperties

  function Undisclosed(env: Environment): Environment {
    env.(content := map[])
  }

  /** The verifier gets past the records of the export to what its source says. */
  predicate ShowsSource(k: Kernel, bundle: Json) {
    Descends(k, bundle) && AllWellFormed(k, Items(Get(Get(bundle, Body), Attestations)))
  }

  /** The disclosed content changes no event's content finding, down to the trace at the bottom, wherever content is
      read at all: the trace has its lists, and no export above it holds a malformed record. */
  ghost predicate ContentNeutral(k: Kernel, bundle: Json, content: map<string, Disclosed>)
    decreases bundle
  {
    if IsTrace(k, bundle) then
      TraceShaped(Get(bundle, Body)) ==> NeutralEvents(k, Items(Get(Get(bundle, Body), Events)), content)
    else if ShowsSource(k, bundle) then
      SourceIsSmaller(bundle);
      ContentNeutral(k, SourceOf(bundle), content)
    else true
  }

  ghost predicate NeutralEvents(k: Kernel, evs: seq<Json>, content: map<string, Disclosed>) {
    forall ev :: ev in evs ==> ContentVerdict(k, ev, content) == ContentVerdict(k, ev, map[])
  }

  lemma {:induction false} NoContentIsNeutral(k: Kernel, bundle: Json)
    ensures ContentNeutral(k, bundle, map[])
    decreases bundle
  {
    hide IsTrace, Descends, AllWellFormed, TraceShaped;
    if !IsTrace(k, bundle) && ShowsSource(k, bundle) {
      DescendsHasSource(k, bundle);
      SourceIsSmaller(bundle);
      NoContentIsNeutral(k, SourceOf(bundle));
    }
  }

  /** Content shows in the events, nowhere else: with the same events the whole result is the same. */
  lemma {:induction false} EventsDecide(k: Kernel, bundle: Json, env: Environment)
    requires BundleVerdict(k, bundle, env).events == BundleVerdict(k, bundle, Undisclosed(env)).events
    ensures BundleVerdict(k, bundle, env) == BundleVerdict(k, bundle, Undisclosed(env))
    decreases bundle
  {
    hide BundleVerdict, ExportVerdict, TraceVerdict, IsTrace, Descends;
    if IsTrace(k, bundle) {
      TraceBranch(k, bundle, env);
      TraceBranch(k, bundle, Undisclosed(env));
      TraceEventsDecide(k, bundle, env);
    } else if Descends(k, bundle) {
      DescendsHasSource(k, bundle);
      SourceIsSmaller(bundle);
      ExportBranch(k, bundle, env);
      ExportBranch(k, bundle, Undisclosed(env));
      var x, y := BundleVerdict(k, SourceOf(bundle), env), BundleVerdict(k, SourceOf(bundle), Undisclosed(env));
      ExportEvents(k, bundle, x);
      ExportEvents(k, bundle, y);
      if AllWellFormed(k, Items(Get(Get(bundle, Body), Attestations))) {
        EventsDecide(k, SourceOf(bundle), env);
      } else {
        RejectedExport(k, bundle, x, y);
      }
    } else {
      OtherBranch(k, bundle, env);
      OtherBranch(k, bundle, Undisclosed(env));
    }
  }

  lemma ExportEvents(k: Kernel, bundle: Json, source: BundleResult)
    ensures ExportVerdict(k, bundle, source).events
            == if AllWellFormed(k, Items(Get(Get(bundle, Body), Attestations))) then source.events else []
  {
    hide AllWellFormed, VerdictOf, Agrees, SourceLinked, Summarize, ExportStatus;
  }

  lemma RejectedExport(k: Kernel, bundle: Json, a: BundleResult, b: BundleResult)
    requires !AllWellFormed(k, Items(Get(Get(bundle, Body), Attestations)))
    ensures ExportVerdict(k, bundle, a) == ExportVerdict(k, bundle, b)
  {
    hide AllWellFormed, VerdictOf, Agrees, SourceLinked, Summarize, ExportStatus;
  }

  lemma TraceEventsDecide(k: Kernel, bundle: Json, env: Environment)
    requires TraceVerdict(k, bundle, env).events == TraceVerdict(k, bundle, Undisclosed(env)).events
    ensures TraceVerdict(k, bundle, env) == TraceVerdict(k, bundle, Undisclosed(env))
  {
    hide EventVerdicts, FirstWins, TraceStatus, OnlineViews, OfflineViews, UnreachableView;
  }

  /** Exact at any nesting: content leaves the events as they are if and only if it is neutral. */
  lemma {:induction false} NeutralIsExact(k: Kernel, bundle: Json, env: Environment)
    ensures BundleVerdict(k, bundle, env).events == BundleVerdict(k, bundle, Undisclosed(env)).events
            <==> ContentNeutral(k, bundle, env.content)
    decreases bundle
  {
    hide BundleVerdict, ExportVerdict, TraceVerdict, IsTrace, Descends, NeutralEvents, TraceShaped, AllWellFormed;
    if IsTrace(k, bundle) {
      TraceBranch(k, bundle, env);
      TraceBranch(k, bundle, Undisclosed(env));
      NeutralTrace(k, bundle, env);
    } else if Descends(k, bundle) {
      DescendsHasSource(k, bundle);
      SourceIsSmaller(bundle);
      NeutralIsExact(k, SourceOf(bundle), env);
      ExportBranch(k, bundle, env);
      ExportBranch(k, bundle, Undisclosed(env));
      ExportEvents(k, bundle, BundleVerdict(k, SourceOf(bundle), env));
      ExportEvents(k, bundle, BundleVerdict(k, SourceOf(bundle), Undisclosed(env)));
    } else {
      OtherBranch(k, bundle, env);
      OtherBranch(k, bundle, Undisclosed(env));
    }
  }

  /** Neutral content changes nothing at all. */
  lemma NeutralContent(k: Kernel, bundle: Json, env: Environment)
    requires ContentNeutral(k, bundle, env.content)
    ensures BundleVerdict(k, bundle, env) == BundleVerdict(k, bundle, Undisclosed(env))
  {
    hide BundleVerdict, ContentNeutral;
    NeutralIsExact(k, bundle, env);
    EventsDecide(k, bundle, env);
  }

  /** For a trace, content leaves the events alone exactly when it is neutral; one without its lists has no events. */
  lemma NeutralTrace(k: Kernel, bundle: Json, env: Environment)
    ensures TraceVerdict(k, bundle, env).events == TraceVerdict(k, bundle, Undisclosed(env)).events
            <==> (TraceShaped(Get(bundle, Body)) ==>
                    NeutralEvents(k, Items(Get(Get(bundle, Body), Events)), env.content))
  {
    hide Views, FirstWins, TraceStatus, GatewayUnavailable, ContentVerdict, EventVerdict;
    if TraceShaped(Get(bundle, Body)) {
      var cps, evs := Items(Get(Get(bundle, Body), Checkpoints)), Items(Get(Get(bundle, Body), Events));
      var xs, ys := EventVerdicts(k, evs, FirstWins(cps), env.content), EventVerdicts(k, evs, FirstWins(cps), map[]);
      forall i | 0 <= i < |evs|
        ensures xs[i] == ys[i] <==> ContentVerdict(k, evs[i], env.content) == ContentVerdict(k, evs[i], map[])
      {
        NeutralEvent(k, evs[i], FirstWins(cps), env.content);
      }
      if NeutralEvents(k, evs, env.content) {
        assert xs == ys;
      }
    }
  }

  lemma NeutralEvent(k: Kernel, ev: Json, byTxId: map<string, Json>, content: map<string, Disclosed>)
    ensures EventVerdict(k, ev, byTxId, content) == EventVerdict(k, ev, byTxId, map[])
            <==> ContentVerdict(k, ev, content) == ContentVerdict(k, ev, map[])
  {
    hide EnvelopeVerdict, Included, CheckpointFor, ContentVerdict;
  }

  /** Equal but for the content finding and what follows from it. */
  ghost predicate SameButContent(a: EventResult, b: EventResult) {
    a.(contentOk := b.contentOk, ok := b.ok) == b && OkFollows(a) && OkFollows(b)
  }

  predicate OkFollows(e: EventResult) {
    e.ok == (e.envelopeOk && e.inclusionOk && e.checkpointBound && e.contentOk != No)
  }

  /** Whatever gateways answer and content discloses, the events of a result differ at most in their content findings
      and in what follows from those. */
  lemma {:induction false} EventsComeAlike(k: Kernel, bundle: Json, a: Environment, b: Environment)
    ensures var xs, ys := BundleVerdict(k, bundle, a).events, BundleVerdict(k, bundle, b).events;
            |xs| == |ys| && forall i :: 0 <= i < |xs| ==> SameButContent(xs[i], ys[i])
    decreases bundle
  {
    hide BundleVerdict, ExportVerdict, TraceVerdict, IsTrace, Descends, SameButContent;
    if IsTrace(k, bundle) {
      TraceBranch(k, bundle, a);
      TraceBranch(k, bundle, b);
      TraceEventsAlike(k, bundle, a, b);
    } else if Descends(k, bundle) {
      DescendsHasSource(k, bundle);
      SourceIsSmaller(bundle);
      EventsComeAlike(k, SourceOf(bundle), a, b);
      ExportBranch(k, bundle, a);
      ExportBranch(k, bundle, b);
      var x, y := BundleVerdict(k, SourceOf(bundle), a), BundleVerdict(k, SourceOf(bundle), b);
      ExportEvents(k, bundle, x);
      ExportEvents(k, bundle, y);
    } else {
      OtherBranch(k, bundle, a);
      OtherBranch(k, bundle, b);
    }
  }

  lemma TraceEventsAlike(k: Kernel, bundle: Json, a: Environment, b: Environment)
    ensures var xs, ys := TraceVerdict(k, bundle, a).events, TraceVerdict(k, bundle, b).events;
            |xs| == |ys| && forall i :: 0 <= i < |xs| ==> SameButContent(xs[i], ys[i])
  {
    hide Views, FirstWins, TraceStatus, GatewayUnavailable, ContentVerdict, EnvelopeVerdict, Included, CheckpointFor;
  }
}
