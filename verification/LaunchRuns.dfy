/** Runs of launches, updates, exits and crashes: what the version marker still tells. */
module LaunchRuns {
  import opened Wrappers
  import opened Launch
  import Text

  datatype Event = Boot(env: Env) | Swap(v: Version) | Exit | CrashRestart | Logout | MarkerLost

  /** `forced` counts the successful forced restarts since the last swap. */
  datatype State = State(m: Machine, forced: nat)

  function FreshInstall(v: Version): State { State(Machine(false, None, None, v), 0) }

  predicate ForcedOk(m: Machine, env: Env) { Forces(m, env) && KickstartOk(env.force.reply) }

  function Step(s: State, e: Event): State {
    match e
    case Boot(env) => State(Launched(s.m, env), s.forced + if ForcedOk(s.m, env) then 1 else 0)
    case Swap(v) => State(s.m.(bundle := v), 0)
    case Exit => s.(m := s.m.(running := None))
    case CrashRestart => s.(m := s.m.(running := if s.m.running.Some? then Some(s.m.bundle) else None))
    case Logout => s.(m := s.m.(running := None, loaded := false))
    case MarkerLost => s.(m := s.m.(marker := None))
  }

  function Run(s: State, events: seq<Event>): State {
    if events == [] then s else Step(Run(s, events[..|events| - 1]), Last(events))
  }

  lemma RunOneMore(s: State, events: seq<Event>, e: Event)
    ensures Run(s, events + [e]) == Step(Run(s, events), e)
  {
    assert (events + [e])[..|events|] == events;
  }

  /** Over every run only a loaded service has a daemon running. */
  lemma {:induction false} RunningIsLoaded(v: Version, events: seq<Event>)
    ensures var m := Run(FreshInstall(v), events).m; m.running.Some? ==> m.loaded
  {
    if events != [] { RunningIsLoaded(v, events[..|events| - 1]); }
  }

  // ---- Assumptions on runs ----

  /** No daemon but one of this version runs. */
  predicate RunsOnly(m: Machine, v: Version) { m.running.None? || m.running == Some(v) }

  /** Bootstrap and the plain kickstart answer truthfully, and versions carry no surrounding space. */
  predicate HonestEvent(m: Machine, e: Event) {
    match e
    case Boot(env) => Honest(m, env)
    case Swap(v) => Trim(v) == v
    case _ => true
  }

  /** A `-k` that reports success has restarted the daemon. */
  predicate RestartsAsTold(e: Event) {
    e.Boot? && KickstartOk(e.env.force.reply) ==> e.env.force.took
  }

  /** So does `-k`, and a launch without a marker meets no older daemon. */
  predicate Lawful(m: Machine, e: Event) {
    && HonestEvent(m, e)
    && RestartsAsTold(e)
    && (e.Boot? && m.marker.None? ==> RunsOnly(m, m.bundle))
  }

  ghost predicate LawfulRun(s: State, events: seq<Event>) {
    events != [] ==> LawfulRun(s, events[..|events| - 1]) && Lawful(Run(s, events[..|events| - 1]).m, Last(events))
  }

  ghost predicate HonestRun(s: State, events: seq<Event>) {
    events != [] ==>
      HonestRun(s, events[..|events| - 1]) && HonestEvent(Run(s, events[..|events| - 1]).m, Last(events))
  }

  /** A completed launch that writes the marker if there is none. */
  predicate WritesFirst(env: Env) { EnsureOk(env) && env.dataDir && env.writeOk }

  predicate Marked(events: seq<Event>) {
    events != [] && (Marked(events[..|events| - 1]) || (Last(events).Boot? && WritesFirst(Last(events).env)))
  }

  /** Told from the events: the marker is never lost, and the first update comes after a launch that
      wrote it. */
  predicate MarkerKept(events: seq<Event>) {
    events != [] ==>
      && MarkerKept(events[..|events| - 1])
      && !Last(events).MarkerLost?
      && (Last(events).Swap? ==> Marked(events[..|events| - 1]))
  }

  predicate AllRestartAsTold(events: seq<Event>) {
    events != [] ==> AllRestartAsTold(events[..|events| - 1]) && RestartsAsTold(Last(events))
  }

  /** That is enough for a launch without a marker to meet no older daemon. */
  lemma {:induction false} KeptMarkersAreLawful(v: Version, events: seq<Event>)
    requires HonestRun(FreshInstall(v), events) && MarkerKept(events)
    ensures AllRestartAsTold(events) ==> LawfulRun(FreshInstall(v), events)
    ensures var m := Run(FreshInstall(v), events).m;
            if Marked(events) then m.marker.Some? else m.bundle == v && RunsOnly(m, v)
  {
    if events != [] { KeptMarkersAreLawful(v, events[..|events| - 1]); }
  }

  /** The marker tells the truth: if it names the bundle's version, no other version runs. */
  predicate Truthful(m: Machine) {
    Trim(m.bundle) == m.bundle && (Current(m) ==> RunsOnly(m, m.bundle))
  }

  // ---- Versions that never return ----

  function Shipped(v: Version, events: seq<Event>): seq<Version> {
    if events == [] then [v]
    else
      var before := Shipped(v, events[..|events| - 1]);
      if Last(events).Swap? then before + [Last(events).v] else before
  }

  /** The first version and those of all updates are pairwise distinct. */
  predicate NeverReturns(v: Version, events: seq<Event>) {
    forall i, j :: 0 <= i < j < |Shipped(v, events)| ==> Shipped(v, events)[i] != Shipped(v, events)[j]
  }

  /** The marker names a version already shipped, and the bundle is the last one. */
  predicate MarksShipped(m: Machine, shipped: seq<Version>) {
    && Truthful(m)
    && m.bundle in shipped
    && (m.marker.Some? ==> Trim(m.marker.value) in shipped)
  }

  lemma StepMarksShipped(s: State, e: Event, shipped: seq<Version>)
    requires MarksShipped(s.m, shipped) && Lawful(s.m, e) && (e.Swap? ==> e.v !in shipped)
    ensures MarksShipped(Step(s, e).m, if e.Swap? then shipped + [e.v] else shipped)
  {
  }

  lemma {:induction false} NewVersionsKeepTruth(v: Version, events: seq<Event>)
    requires Trim(v) == v && LawfulRun(FreshInstall(v), events) && NeverReturns(v, events)
    ensures MarksShipped(Run(FreshInstall(v), events).m, Shipped(v, events))
  {
    if events != [] {
      var init, e := events[..|events| - 1], Last(events);
      var shipped := Shipped(v, events);
      assert forall i :: 0 <= i < |Shipped(v, init)| ==> Shipped(v, init)[i] == shipped[i];
      NewVersionsKeepTruth(v, init);
      if e.Swap? { assert shipped == Shipped(v, init) + [e.v] && shipped[|shipped| - 1] == e.v; }
      StepMarksShipped(Run(FreshInstall(v), init), e, Shipped(v, init));
    }
  }

  // ---- Updates that are settled before anything starts ----

  /** A launch after which the marker names the bundle. */
  predicate Completed(env: Env) { WritesFirst(env) && KickstartOk(env.force.reply) }

  /** An update has not been followed by a completed launch yet. */
  predicate Settling(events: seq<Event>) {
    events != [] &&
    match Last(events)
    case Swap(_) => true
    case Boot(env) => !Completed(env) && Settling(events[..|events| - 1])
    case _ => Settling(events[..|events| - 1])
  }

  predicate StartsNothing(e: Event) {
    match e
    case CrashRestart => false
    case Boot(env) => !env.kick.took && !env.force.took
    case _ => true
  }

  /** Between an update and its completed launch no daemon is started. */
  predicate Patient(events: seq<Event>) {
    events != [] ==>
      && Patient(events[..|events| - 1])
      && (Settling(events[..|events| - 1]) ==>
            StartsNothing(Last(events)) || (Last(events).Boot? && Completed(Last(events).env)))
  }

  /** Only the marked version runs, and outside an update it is the bundle's. */
  predicate RunsMarked(m: Machine, settling: bool) {
    && Trim(m.bundle) == m.bundle
    && (m.marker.Some? ==> RunsOnly(m, Trim(m.marker.value)) && (settling || Current(m)))
  }

  lemma StepRunsMarked(s: State, e: Event, settling: bool)
    requires RunsMarked(s.m, settling) && Lawful(s.m, e)
    requires settling ==> StartsNothing(e) || (e.Boot? && Completed(e.env))
    ensures RunsMarked(Step(s, e).m, e.Swap? || (settling && !(e.Boot? && Completed(e.env))))
  {
  }

  /** Here versions may return. */
  lemma {:induction false} SettledUpdatesKeepTruth(v: Version, events: seq<Event>)
    requires Trim(v) == v && LawfulRun(FreshInstall(v), events) && Patient(events)
    ensures RunsMarked(Run(FreshInstall(v), events).m, Settling(events))
  {
    if events != [] {
      var init := events[..|events| - 1];
      SettledUpdatesKeepTruth(v, init);
      StepRunsMarked(Run(FreshInstall(v), init), Last(events), Settling(init));
    }
  }

  /** From a fresh install, over every lawful run in which no version returns, or no daemon starts
      between an update and its completed launch: a successful launch that leaves the marker at the
      current version leaves the current daemon running. In the first case marker writes and forced
      restarts may fail, and daemons may exit or crash and restart, at any time. */
  lemma MarkerTellsTruth(v: Version, events: seq<Event>, env: Env)
    requires Trim(v) == v && LawfulRun(FreshInstall(v), events + [Boot(env)]) && EnsureOk(env)
    requires NeverReturns(v, events + [Boot(env)]) || Patient(events + [Boot(env)])
    ensures var m := Run(FreshInstall(v), events + [Boot(env)]).m;
            Current(m) ==> m.running == Some(m.bundle)
  {
    var all := events + [Boot(env)];
    RunOneMore(FreshInstall(v), events, Boot(env));
    assert all[..|events|] == events;
    if NeverReturns(v, all) { NewVersionsKeepTruth(v, all); } else { SettledUpdatesKeepTruth(v, all); }
  }

  // ---- A version that does return ----

  function BundleAfter(x: Version, events: seq<Event>): Version {
    if events == [] then x
    else if Last(events).Swap? then Last(events).v
    else BundleAfter(x, events[..|events| - 1])
  }

  predicate KickReached(env: Env) { env.installOk && BootstrapOk(env.boot.reply) }

  /** With the marker at x and the bundle at b: the event puts a daemon of the bundle in place. */
  predicate Starts(x: Version, b: Version, alive: bool, e: Event) {
    match e
    case CrashRestart => alive
    case Boot(env) =>
      (KickReached(env) && env.kick.took && !alive) || (EnsureOk(env) && env.dataDir && b != x && env.force.took)
    case _ => false
  }

  predicate Stops(e: Event) { e.Exit? || e.Logout? }

  predicate Alive(x: Version, alive: bool, events: seq<Event>) {
    if events == [] then alive
    else
      var init := events[..|events| - 1];
      !Stops(Last(events))
      && (Alive(x, alive, init) || Starts(x, BundleAfter(x, init), Alive(x, alive, init), Last(events)))
  }

  predicate StartsAt(x: Version, alive: bool, events: seq<Event>, i: nat)
    requires i < |events|
  {
    Starts(x, BundleAfter(x, events[..i]), Alive(x, alive, events[..i]), events[i])
  }

  /** Event i started a daemon while another version was installed, and none later stopped or replaced
      it. */
  ghost predicate Stranger(x: Version, alive: bool, events: seq<Event>, i: nat) {
    && i < |events|
    && BundleAfter(x, events[..i]) != x && StartsAt(x, alive, events, i)
    && forall j :: i < j < |events| ==> !Stops(events[j]) && !StartsAt(x, alive, events, j)
  }

  /** The event writes another version to the marker, or loses it. */
  predicate Rewrites(x: Version, b: Version, e: Event) {
    e.MarkerLost? || (e.Boot? && Completed(e.env) && b != x)
  }

  predicate Unwritten(x: Version, events: seq<Event>) {
    events != [] ==>
      && Unwritten(x, events[..|events| - 1])
      && !Rewrites(x, BundleAfter(x, events[..|events| - 1]), Last(events))
  }

  predicate StartsNext(x: Version, alive: bool, events: seq<Event>, e: Event) {
    Starts(x, BundleAfter(x, events), Alive(x, alive, events), e)
  }

  lemma SameBefore(x: Version, alive: bool, events: seq<Event>, e: Event, k: nat)
    requires k < |events|
    ensures StartsAt(x, alive, events + [e], k) == StartsAt(x, alive, events, k)
    ensures BundleAfter(x, (events + [e])[..k]) == BundleAfter(x, events[..k])
  {
    assert (events + [e])[..k] == events[..k];
  }

  lemma AtTheEnd(x: Version, alive: bool, events: seq<Event>, e: Event)
    ensures StartsAt(x, alive, events + [e], |events|) == StartsNext(x, alive, events, e)
    ensures BundleAfter(x, (events + [e])[..|events|]) == BundleAfter(x, events)
  {
    assert (events + [e])[..|events|] == events;
  }

  lemma StrangerOneMore(x: Version, alive: bool, events: seq<Event>, e: Event, i: nat)
    requires i < |events|
    ensures Stranger(x, alive, events + [e], i) <==>
              Stranger(x, alive, events, i) && !Stops(e) && !StartsNext(x, alive, events, e)
  {
    var all := events + [e];
    AtTheEnd(x, alive, events, e);
    forall k: nat | k < |events|
      ensures StartsAt(x, alive, all, k) == StartsAt(x, alive, events, k) && all[k] == events[k]
      ensures BundleAfter(x, all[..k]) == BundleAfter(x, events[..k])
    {
      SameBefore(x, alive, events, e, k);
    }
    assert all[|events|] == e;
  }

  lemma StrangerLast(x: Version, alive: bool, events: seq<Event>, e: Event)
    ensures Stranger(x, alive, events + [e], |events|) <==>
              BundleAfter(x, events) != x && StartsNext(x, alive, events, e)
  {
    AtTheEnd(x, alive, events, e);
  }

  ghost predicate SomeStranger(x: Version, alive: bool, events: seq<Event>) {
    exists i: nat :: Stranger(x, alive, events, i)
  }

  lemma StrangersOneMore(x: Version, alive: bool, events: seq<Event>, e: Event)
    ensures SomeStranger(x, alive, events + [e]) <==>
              if StartsNext(x, alive, events, e) then BundleAfter(x, events) != x
              else !Stops(e) && SomeStranger(x, alive, events)
  {
    StrangerLast(x, alive, events, e);
    forall i: nat | i < |events|
      ensures Stranger(x, alive, events + [e], i) <==>
                Stranger(x, alive, events, i) && !Stops(e) && !StartsNext(x, alive, events, e)
    {
      StrangerOneMore(x, alive, events, e, i);
    }
  }

  /** The state after the events, told from the events. */
  ghost predicate Told(m: Machine, x: Version, alive: bool, events: seq<Event>) {
    && m.bundle == BundleAfter(x, events)
    && m.marker.Some? && Trim(m.marker.value) == x
    && (m.running.Some? <==> Alive(x, alive, events))
    && (m.running.Some? && m.running.value != x <==> SomeStranger(x, alive, events))
  }

  lemma BootRunning(m: Machine, x: Version, env: Env)
    requires m.marker.Some? && Trim(m.marker.value) == x && Honest(m, env) && !Rewrites(x, m.bundle, Boot(env))
    ensures var n := Launched(m, env);
            && n.marker.Some? && Trim(n.marker.value) == x && n.bundle == m.bundle
            && n.running == if Starts(x, m.bundle, m.running.Some?, Boot(env)) then Some(m.bundle) else m.running
  {
  }

  lemma StepRunning(m: Machine, x: Version, e: Event)
    requires m.marker.Some? && Trim(m.marker.value) == x && HonestEvent(m, e) && !Rewrites(x, m.bundle, e)
    ensures var n := Step(State(m, 0), e).m;
            && n.marker.Some? && Trim(n.marker.value) == x
            && n.bundle == (if e.Swap? then e.v else m.bundle)
            && n.running == (if Starts(x, m.bundle, m.running.Some?, e) then Some(m.bundle)
                             else if Stops(e) then None else m.running)
  {
    if e.Boot? { BootRunning(m, x, e.env); }
  }

  lemma StepTold(s: State, x: Version, alive: bool, events: seq<Event>, e: Event)
    requires Told(s.m, x, alive, events) && HonestEvent(s.m, e) && !Rewrites(x, s.m.bundle, e)
    ensures Told(Step(s, e).m, x, alive, events + [e])
  {
    assert (events + [e])[..|events|] == events;
    StepRunning(s.m, x, e);
    assert Step(s, e).m == Step(State(s.m, 0), e).m;
    StrangersOneMore(x, alive, events, e);
  }

  lemma {:induction false} EventsTell(s: State, events: seq<Event>)
    requires Current(s.m) && Truthful(s.m) && HonestRun(s, events) && Unwritten(s.m.bundle, events)
    ensures Told(Run(s, events).m, s.m.bundle, s.m.running.Some?, events)
  {
    if events != [] {
      var init, e := events[..|events| - 1], Last(events);
      EventsTell(s, init);
      StepTold(Run(s, init), s.m.bundle, s.m.running.Some?, init, e);
      assert init + [e] == events;
    }
  }

  /** An update that returns to the marked version leaves the marker truthful if and only if no daemon
      started under another version, since the marker was written, is still in place. */
  lemma ReturnIsTruthfulExactly(s: State, since: seq<Event>)
    requires Current(s.m) && Truthful(s.m) && HonestRun(s, since) && Unwritten(s.m.bundle, since)
    ensures Truthful(Run(s, since + [Swap(s.m.bundle)]).m) <==>
              !SomeStranger(s.m.bundle, s.m.running.Some?, since)
  {
    EventsTell(s, since);
    RunOneMore(s, since, Swap(s.m.bundle));
  }

  /** The same after a completed launch at the end of any lawful run: the daemon it left is in place. */
  lemma ReturnAfterLaunch(v: Version, before: seq<Event>, env: Env, since: seq<Event>)
    requires Trim(v) == v && LawfulRun(FreshInstall(v), before + [Boot(env)]) && Completed(env)
    requires NeverReturns(v, before + [Boot(env)]) || Patient(before + [Boot(env)])
    requires var s := Run(FreshInstall(v), before + [Boot(env)]);
             HonestRun(s, since) && Unwritten(s.m.bundle, since)
    ensures var s := Run(FreshInstall(v), before + [Boot(env)]);
            Truthful(Run(s, since + [Swap(s.m.bundle)]).m) <==> !SomeStranger(s.m.bundle, true, since)
  {
    var all := before + [Boot(env)];
    var s := Run(FreshInstall(v), all);
    RunOneMore(FreshInstall(v), before, Boot(env));
    if NeverReturns(v, all) { NewVersionsKeepTruth(v, all); } else { SettledUpdatesKeepTruth(v, all); }
    MarkerTellsTruth(v, before, env);
    ReturnIsTruthfulExactly(s, since);
  }

  /** A completed launch without a marker leaves a truthful one if and only if it met no older daemon. */
  lemma UnmarkedLaunchIsTruthfulExactly(m: Machine, env: Env)
    requires Trim(m.bundle) == m.bundle && m.marker.None? && WritesFirst(env)
    ensures Truthful(Launched(m, env)) <==> RunsOnly(m, m.bundle)
  {
  }

  /** A forced restart that reports success leaves a truthful marker if and only if it happened, or there
      was no older daemon to replace. */
  lemma ForcedLaunchIsTruthfulExactly(m: Machine, env: Env)
    requires Trim(m.bundle) == m.bundle && Honest(m, env)
    requires Forces(m, env) && KickstartOk(env.force.reply) && env.writeOk
    ensures Truthful(Launched(m, env)) <==> env.force.took || RunsOnly(m, m.bundle)
  {
  }

  // ---- From one update to the next ----

  predicate Stale(m: Machine) { m.marker.Some? && !Current(m) }

  predicate SwapFree(events: seq<Event>) {
    events != [] ==> SwapFree(events[..|events| - 1]) && !Last(events).Swap?
  }

  /** A launch that finds a stale marker forces a restart, and takes it to have happened. */
  predicate Full(e: Event) {
    e.Boot? && EnsureOk(e.env) && e.env.dataDir && KickstartOk(e.env.force.reply)
  }

  /** The event loses a stale marker or writes the bundle's version over it. */
  predicate TouchesMarker(e: Event) { e.MarkerLost? || (e.Boot? && Completed(e.env)) }

  predicate Untouched(events: seq<Event>) {
    events != [] ==> Untouched(events[..|events| - 1]) && !TouchesMarker(Last(events))
  }

  lemma StepStale(s: State, e: Event)
    requires Trim(s.m.bundle) == s.m.bundle && !e.Swap?
    ensures Step(s, e).m.bundle == s.m.bundle
    ensures Stale(Step(s, e).m) <==> Stale(s.m) && !TouchesMarker(e)
    ensures Step(s, e).forced == s.forced + if Stale(s.m) && Full(e) then 1 else 0
  {
  }

  /** Between updates a stale marker stays so exactly until it is lost or written. */
  lemma {:induction false} StaleExactly(s: State, events: seq<Event>)
    requires Trim(s.m.bundle) == s.m.bundle && SwapFree(events)
    ensures Run(s, events).m.bundle == s.m.bundle
    ensures Stale(Run(s, events).m) <==> Stale(s.m) && Untouched(events)
  {
    if events != [] {
      StaleExactly(s, events[..|events| - 1]);
      StepStale(Run(s, events[..|events| - 1]), Last(events));
    }
  }

  // ---- When an update replaces the older daemon ----

  /** The event stops an older daemon, or starts the bundle's in its place. */
  predicate Displaces(e: Event, untouched: bool) {
    || e.Exit? || e.Logout? || e.CrashRestart?
    || (e.Boot? && EnsureOk(e.env) && e.env.dataDir && e.env.force.took && untouched)
  }

  predicate DisplacesAt(events: seq<Event>, i: nat)
    requires i < |events|
  {
    Displaces(events[i], Untouched(events[..i]))
  }

  ghost predicate SomeDisplaces(events: seq<Event>) {
    exists i: nat :: i < |events| && DisplacesAt(events, i)
  }

  lemma DisplacesOneMore(events: seq<Event>)
    requires events != []
    ensures var init := events[..|events| - 1];
            SomeDisplaces(events) <==> SomeDisplaces(init) || Displaces(Last(events), Untouched(init))
  {
    var init := events[..|events| - 1];
    forall i: nat | i < |init| ensures DisplacesAt(events, i) == DisplacesAt(init, i) {
      assert events[..i] == init[..i];
    }
    assert DisplacesAt(events, |init|) == Displaces(Last(events), Untouched(init));
  }

  /** An older daemon still in place: its service is loaded and another version is installed. */
  predicate OlderRuns(m: Machine) { m.loaded && m.running.Some? && m.running.value != m.bundle }

  lemma StepOlder(s: State, e: Event)
    requires !e.Swap? && (OlderRuns(s.m) || RunsOnly(s.m, s.m.bundle))
    ensures OlderRuns(Step(s, e).m) || RunsOnly(Step(s, e).m, s.m.bundle)
    ensures OlderRuns(Step(s, e).m) <==> OlderRuns(s.m) && !Displaces(e, Stale(s.m))
  {
  }

  /** After an update, whatever launchctl answers: the older daemon is gone if and only if it exited,
      crashed or was logged out, or some launch had the stale marker before it and launchd carried its
      forced restart out. Only the reply decides what the marker says. */
  lemma {:induction false} OlderDaemonGoesExactly(s: State, events: seq<Event>)
    requires Trim(s.m.bundle) == s.m.bundle && Stale(s.m) && OlderRuns(s.m) && SwapFree(events)
    ensures var m := Run(s, events).m; RunsOnly(m, m.bundle) <==> SomeDisplaces(events)
    ensures var m := Run(s, events).m; OlderRuns(m) <==> !RunsOnly(m, m.bundle)
  {
    if events != [] {
      var init := events[..|events| - 1];
      OlderDaemonGoesExactly(s, init);
      StaleExactly(s, init);
      StepStale(Run(s, init), Last(events));
      StepOlder(Run(s, init), Last(events));
      DisplacesOneMore(events);
    }
  }

  // ---- Forced restarts ----

  /** The launches that force a restart, told from the events. */
  function ForcedBy(events: seq<Event>): nat {
    if events == [] then 0
    else
      var init := events[..|events| - 1];
      ForcedBy(init) + if Full(Last(events)) && Untouched(init) then 1 else 0
  }

  /** From one update to the next exactly the full launches before the marker is lost or written force. */
  lemma {:induction false} ForcedRestartsAre(s: State, events: seq<Event>)
    requires Trim(s.m.bundle) == s.m.bundle && SwapFree(events)
    ensures Run(s, events).forced == s.forced + if Stale(s.m) then ForcedBy(events) else 0
  {
    if events != [] {
      var init := events[..|events| - 1];
      ForcedRestartsAre(s, init);
      StaleExactly(s, init);
      StepStale(Run(s, init), Last(events));
    }
  }

  /** Two full launches, and before the second nothing has written or lost the marker. */
  ghost predicate RepeatsAt(events: seq<Event>, i: nat, j: nat) {
    i < j < |events| && Full(events[i]) && Full(events[j]) && Untouched(events[..j])
  }

  ghost predicate Repeats(events: seq<Event>) { exists i: nat, j: nat :: RepeatsAt(events, i, j) }

  ghost predicate SomeFull(events: seq<Event>) { exists i: nat :: i < |events| && Full(events[i]) }

  lemma RepeatsOneMore(events: seq<Event>)
    requires events != []
    ensures var init := events[..|events| - 1];
            Repeats(events) <==> Repeats(init) || (SomeFull(init) && Full(Last(events)) && Untouched(init))
  {
    var init := events[..|events| - 1];
    forall i: nat, j: nat | j < |init| ensures RepeatsAt(events, i, j) == RepeatsAt(init, i, j) {
      assert events[..j] == init[..j];
    }
    forall i: nat | i < |init|
      ensures RepeatsAt(events, i, |init|) <==> Full(init[i]) && Full(Last(events)) && Untouched(init)
    {
    }
  }

  lemma {:induction false} TwiceIsRepeated(events: seq<Event>)
    ensures ForcedBy(events) >= 2 <==> Repeats(events)
    ensures Untouched(events) ==> (ForcedBy(events) >= 1 <==> SomeFull(events))
  {
    if events != [] {
      TwiceIsRepeated(events[..|events| - 1]);
      RepeatsOneMore(events);
      assert events[|events| - 1] == Last(events);
      forall i | 0 <= i < |events| - 1 ensures events[i] == events[..|events| - 1][i] {}
    }
  }

  /** An update causes at most one successful forced restart if and only if no two full launches follow
      each other with the marker, up to the second, neither written nor lost. */
  lemma ForcedOnceExactly(s: State, events: seq<Event>)
    requires Trim(s.m.bundle) == s.m.bundle && Stale(s.m) && s.forced == 0 && SwapFree(events)
    ensures Run(s, events).forced <= 1 <==> !Repeats(events)
  {
    ForcedRestartsAre(s, events);
    TwiceIsRepeated(events);
  }

  predicate WritesSucceed(e: Event) { e.Boot? ==> e.env.writeOk }

  predicate ForcedInv(s: State) {
    s.forced <= 1 && (s.forced == 1 ==> s.m.marker.None? || Current(s.m)) && Trim(s.m.bundle) == s.m.bundle
  }

  ghost predicate TrimmedSwaps(events: seq<Event>) {
    forall i :: 0 <= i < |events| && events[i].Swap? ==> Trim(events[i].v) == events[i].v
  }

  lemma {:induction false} UntouchedAt(events: seq<Event>, i: nat)
    requires Untouched(events) && i < |events|
    ensures !TouchesMarker(events[i])
  {
    if i < |events| - 1 { UntouchedAt(events[..|events| - 1], i); }
  }

  /** Where every write succeeds, a full launch leaves no stale marker to a later one. */
  lemma WrittenAtOnce(events: seq<Event>)
    requires forall i :: 0 <= i < |events| ==> WritesSucceed(events[i])
    ensures !Repeats(events)
    ensures Untouched(events) ==> !SomeFull(events)
  {
    if i: nat, j: nat :| RepeatsAt(events, i, j) { UntouchedAt(events[..j], i); }
    if Untouched(events) {
      forall i: nat | i < |events| ensures !Full(events[i]) { UntouchedAt(events, i); }
    }
  }

  lemma {:induction false} RunInTwo(s: State, before: seq<Event>, since: seq<Event>)
    ensures Run(s, before + since) == Run(Run(s, before), since)
  {
    if since == [] {
      assert before + since == before;
    } else {
      var init, last := since[..|since| - 1], Last(since);
      RunInTwo(s, before, init);
      RunOneMore(s, before + init, last);
      assert before + since == before + init + [last];
    }
  }

  /** What happened up to the last update, and since. */
  lemma {:induction false} SplitAtSwap(events: seq<Event>) returns (before: seq<Event>, since: seq<Event>)
    ensures events == before + since && SwapFree(since) && (before == [] || Last(before).Swap?)
  {
    if events == [] || Last(events).Swap? {
      before, since := events, [];
    } else {
      before, since := SplitAtSwap(events[..|events| - 1]);
      since := AppendedSwapFree(since, Last(events));
    }
  }

  lemma AppendedSwapFree(events: seq<Event>, e: Event) returns (more: seq<Event>)
    requires SwapFree(events) && !e.Swap?
    ensures more == events + [e] && SwapFree(more)
  {
    more := events + [e];
    assert more[..|events|] == events;
  }

  lemma {:induction false} TrimmedBundle(v: Version, events: seq<Event>)
    requires Trim(v) == v && TrimmedSwaps(events)
    ensures var s := Run(FreshInstall(v), events);
            Trim(s.m.bundle) == s.m.bundle && (events == [] || Last(events).Swap? ==> s.forced == 0)
  {
    if events != [] {
      var init := events[..|events| - 1];
      assert forall i :: 0 <= i < |init| ==> events[i] == init[i];
      assert events[|events| - 1] == Last(events);
      TrimmedBundle(v, init);
    }
  }

  lemma ForcedSinceUpdate(s: State, events: seq<Event>)
    requires Trim(s.m.bundle) == s.m.bundle && s.forced == 0 && SwapFree(events)
    requires forall i :: 0 <= i < |events| ==> WritesSucceed(events[i])
    ensures ForcedInv(Run(s, events))
  {
    WrittenAtOnce(events);
    StaleExactly(s, events);
    ForcedRestartsAre(s, events);
    TwiceIsRepeated(events);
  }

  lemma PartsAlike(events: seq<Event>, before: seq<Event>, since: seq<Event>)
    requires events == before + since && TrimmedSwaps(events)
    requires forall i :: 0 <= i < |events| ==> WritesSucceed(events[i])
    ensures TrimmedSwaps(before)
    ensures forall i :: 0 <= i < |since| ==> WritesSucceed(since[i])
  {
    assert forall i :: 0 <= i < |before| ==> before[i] == events[i];
    assert forall i :: 0 <= i < |since| ==> since[i] == events[|before| + i];
  }

  /** If marker writes succeed, each version change causes at most one successful forced restart,
      whatever else happens. */
  lemma {:induction false} OneForcedRestartPerSwap(v: Version, events: seq<Event>)
    requires Trim(v) == v && TrimmedSwaps(events)
    requires forall i :: 0 <= i < |events| ==> WritesSucceed(events[i])
    ensures ForcedInv(Run(FreshInstall(v), events))
  {
    var before, since := SplitAtSwap(events);
    RunInTwo(FreshInstall(v), before, since);
    PartsAlike(events, before, since);
    TrimmedBundle(v, before);
    ForcedSinceUpdate(Run(FreshInstall(v), before), since);
  }

  // ---- Why each assumption is there ----

  const YES: Call := Call(Exited(0, ""), true)

  const GOOD: Env := Env(true, YES, YES, YES, true, true)

  /** Five events, one after another. */
  lemma FiveSteps(s: State, a: Event, b: Event, c: Event, d: Event, e: Event)
    ensures Run(s, [a, b, c, d, e]) == Step(Step(Step(Step(Step(s, a), b), c), d), e)
  {
    assert [a, b, c, d, e] == [] + [a] + [b] + [c] + [d] + [e];
    RunOneMore(s, [], a);
    RunOneMore(s, [] + [a], b);
    RunOneMore(s, [] + [a] + [b], c);
    RunOneMore(s, [] + [a] + [b] + [c], d);
    RunOneMore(s, [] + [a] + [b] + [c] + [d], e);
  }

  /** A marker lost beside a running daemon before the update's launch: the launch records the new
      version over the old daemon. */
  lemma LostMarkerHidesOldDaemon()
    ensures var m := Run(FreshInstall("1"), [Boot(GOOD), CrashRestart, Swap("2"), MarkerLost, Boot(GOOD)]).m;
            Current(m) && m.bundle == "2" && m.running == Some("1")
  {
    FiveSteps(FreshInstall("1"), Boot(GOOD), CrashRestart, Swap("2"), MarkerLost, Boot(GOOD));
  }

  /** Failed marker writes repeat the forced restart at every launch of the same version. */
  lemma FailedWriteForcesAgain()
    ensures var unwritten := GOOD.(writeOk := false);
            Run(FreshInstall("1"), [Boot(GOOD), Swap("2"), Boot(unwritten), Boot(unwritten), Boot(GOOD)]).forced == 3
  {
    var unwritten := GOOD.(writeOk := false);
    FiveSteps(FreshInstall("1"), Boot(GOOD), Swap("2"), Boot(unwritten), Boot(unwritten), Boot(GOOD));
  }

  const ALREADY: Call := Call(Exited(37, "service is already running"), false)

  lemma AlreadyIsOk()
    ensures KickstartOk(ALREADY.reply)
  {
    var text := "service is already running";
    assert Text.Lower(text) == text;
    assert Text.Contains(text, "service is already running");
  }

  /** An "already running" answer to `-k` counts as success although nothing was restarted. */
  lemma AlreadyRunningCountsAsRestart()
    ensures var kept := GOOD.(force := ALREADY);
            var m := Run(FreshInstall("1"), [Boot(GOOD), Boot(GOOD), Swap("2"), Boot(kept), Boot(GOOD)]).m;
            Current(m) && m.bundle == "2" && m.running == Some("1")
  {
    AlreadyIsOk();
    var kept := GOOD.(force := ALREADY);
    FiveSteps(FreshInstall("1"), Boot(GOOD), Boot(GOOD), Swap("2"), Boot(kept), Boot(GOOD));
  }

  /** Going back to the marked version after a crash between the two swaps restarted the newer daemon:
      the older app's launch takes the marker at its word. */
  lemma CrashBetweenSwaps()
    ensures var m := Run(FreshInstall("1"), [Boot(GOOD), Swap("2"), CrashRestart, Swap("1"), Boot(GOOD)]).m;
            Current(m) && m.bundle == "1" && m.running == Some("2")
  {
    FiveSteps(FreshInstall("1"), Boot(GOOD), Swap("2"), CrashRestart, Swap("1"), Boot(GOOD));
  }

  /** The same without any crash: after a logout the newer app's launch starts its own daemon, fails to
      force a restart and so leaves the old marker; then the older version comes back. */
  lemma FailedForceBetweenSwaps()
    ensures var bad := GOOD.(force := Call(Failed, false));
            var m := Run(FreshInstall("1"), [Boot(GOOD), Exit, Swap("2"), Boot(bad), Swap("1")] + [Boot(GOOD)]).m;
            Current(m) && m.bundle == "1" && m.running == Some("2")
  {
    var bad := GOOD.(force := Call(Failed, false));
    FiveSteps(FreshInstall("1"), Boot(GOOD), Exit, Swap("2"), Boot(bad), Swap("1"));
    RunOneMore(FreshInstall("1"), [Boot(GOOD), Exit, Swap("2"), Boot(bad), Swap("1")], Boot(GOOD));
  }
}
