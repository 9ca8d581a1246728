/**
 * The economic activation runner: an outbox of requests, each activated at most once (`economic_activation_runner.py`).
 */
module Activation {
  import opened Identifiers
  import opened Results
  import opened Ordering

  type Name = Address  // request file names, numbered in the order they sort
  type Digest = nat
  type Marker = nat

  /** What a request activates. */
  datatype Candidate = Candidate(candidateHash: nat, forkHash: nat)

  /** A request says which file name it belongs to. */
  datatype Request = Request(id: Name, candidate: Candidate)

  /** A file in the outbox; `request` is None when its bytes are no acceptable request. */
  datatype File = File(bytes: nat, request: Option<Request>, regular: bool)

  datatype Rejection =
    | RequestInvalid | ReleaseInvalid | RequestReplayed | MarkerFailed | RevalidationFailed
    | MaterializationInvalid | ScriptInvalid | ActivationFailed

  datatype Report = Activated(candidate: Candidate) | Rejected(code: Rejection)

  /** Where a run may be killed: the files keep what was done so far. */
  datatype Crash = NoCrash | AfterMarker | BeforeInvocation | AfterInvocation | BeforeArchive | DuringArchive

  /** Everything one run meets from outside. */
  datatype World = World(
    loads: bool, releaseActive: bool, markerWritten: bool, revalidated: bool, materialized: bool,
    scriptOk: bool, activationSucceeds: bool, crash: Crash)

  /** The digests: of a name, of a file's bytes, and of a candidate for its marker. None is assumed injective. */
  datatype Hashes = Hashes(name: Name -> Digest, bytes: nat -> Digest, marker: Candidate -> Marker)

  /** The runner's directories, and every invocation of the activation script so far. */
  datatype Store = Store(
    outbox: map<Name, File>, consumed: set<Marker>, results: map<Digest, Report>, processed: map<Digest, File>,
    invocations: seq<Candidate>)

  datatype Outcome = Idle | Completed(report: Report) | Crashed

  // ---- A run as a function ----

  predicate Acceptable(name: Name, file: File, w: World) {
    w.loads && file.regular && file.request.Some? && file.request.value.id == name
  }

  /** What happens up to the report: the report if the run lives, and the markers and invocations it leaves. */
  datatype Effect = Effect(report: Option<Report>, consumed: set<Marker>, invocations: seq<Candidate>)

  function Process(h: Hashes, s: Store, name: Name, file: File, w: World): Effect {
    if !Acceptable(name, file, w) then Effect(Some(Rejected(RequestInvalid)), s.consumed, s.invocations)
    else if !w.releaseActive then Effect(Some(Rejected(ReleaseInvalid)), s.consumed, s.invocations)
    else
      var candidate := file.request.value.candidate;
      var marker := h.marker(candidate);
      if marker in s.consumed then Effect(Some(Rejected(RequestReplayed)), s.consumed, s.invocations)
      else if !w.markerWritten then Effect(Some(Rejected(MarkerFailed)), s.consumed, s.invocations)
      else Activate(candidate, s.consumed + {marker}, s.invocations, w)
  }

  function Activate(candidate: Candidate, consumed: set<Marker>, invocations: seq<Candidate>, w: World): Effect {
    if w.crash.AfterMarker? then Effect(None, consumed, invocations)
    else if !w.revalidated then Effect(Some(Rejected(RevalidationFailed)), consumed, invocations)
    else if !w.materialized then Effect(Some(Rejected(MaterializationInvalid)), consumed, invocations)
    else if w.crash.BeforeInvocation? then Effect(None, consumed, invocations)
    else if !w.scriptOk then Effect(Some(Rejected(ScriptInvalid)), consumed, invocations)
    else if w.crash.AfterInvocation? then Effect(None, consumed, invocations + [candidate])
    else
      Effect(
        Some(if w.activationSucceeds then Activated(candidate) else Rejected(ActivationFailed)),
        consumed, invocations + [candidate])
  }

  /** The report of a run that is not killed names its first failed check, in this order. */
  lemma ReportIff(h: Hashes, s: Store, name: Name, file: File, w: World)
    requires Process(h, s, name, file, w).report.Some?
    ensures var report := Process(h, s, name, file, w).report.value;
            var acceptable := w.loads && file.regular && file.request.Some? && file.request.value.id == name;
            && (report == Rejected(RequestInvalid) <==> !acceptable)
            && (report == Rejected(ReleaseInvalid) <==> acceptable && !w.releaseActive)
            && (acceptable && w.releaseActive ==>
                  var unused := h.marker(file.request.value.candidate) !in s.consumed;
                  && (report == Rejected(RequestReplayed) <==> !unused)
                  && (report == Rejected(MarkerFailed) <==> unused && !w.markerWritten)
                  && (unused && w.markerWritten ==>
                        && (report == Rejected(RevalidationFailed) <==> !w.revalidated)
                        && (report == Rejected(MaterializationInvalid) <==> w.revalidated && !w.materialized)
                        && (report == Rejected(ScriptInvalid) <==> w.revalidated && w.materialized && !w.scriptOk)
                        && (report == Rejected(ActivationFailed) <==>
                              w.revalidated && w.materialized && w.scriptOk && !w.activationSucceeds)
                        && (report == Activated(file.request.value.candidate) <==>
                              w.revalidated && w.materialized && w.scriptOk && w.activationSucceeds)))
  {}

  function ResultDigest(h: Hashes, name: Name, file: File, w: World): Digest {
    if Acceptable(name, file, w) then h.bytes(file.bytes) else h.name(name)
  }

  ghost function Run(h: Hashes, s: Store, w: World): (Store, Outcome) {
    if s.outbox.Keys == {} then (s, Idle)
    else
      var name := Least(s.outbox.Keys);
      var file := s.outbox[name];
      var e := Process(h, s, name, file, w);
      var after := s.(consumed := e.consumed, invocations := e.invocations);
      if e.report.None? then (after, Crashed)
      else
        var digest := ResultDigest(h, name, file, w);
        var recorded := after.(results := s.results[digest := e.report.value]);
        if w.crash.BeforeArchive? then (recorded, Crashed)
        else
          var archived := recorded.(
            outbox := s.outbox - {name},
            processed := if file.regular then s.processed[digest := file] else s.processed);
          (archived, if w.crash.DuringArchive? then Crashed else Completed(e.report.value))
  }

  /** What can happen to the directories: a run, or a request file appearing or disappearing. */
  datatype Event = RunOnce(world: World) | Deliver(name: Name, file: File) | Withdraw(name: Name)

  ghost function Next(h: Hashes, s: Store, e: Event): Store {
    match e
    case RunOnce(w) => Run(h, s, w).0
    case Deliver(name, file) => s.(outbox := s.outbox[name := file])
    case Withdraw(name) => s.(outbox := s.outbox - {name})
  }

  ghost function After(h: Hashes, events: seq<Event>): Store {
    if events == [] then Store(map[], {}, map[], map[], [])
    else Next(h, After(h, events[..|events| - 1]), events[|events| - 1])
  }

  // ---- At most once ----

  ghost function Count(invocations: seq<Candidate>, c: Candidate): nat {
    if invocations == [] then 0
    else Count(invocations[..|invocations| - 1], c) + if invocations[|invocations| - 1] == c then 1 else 0
  }

  /** Every invocation left its marker behind, and no two invocations share a marker. */
  ghost predicate Once(h: Hashes, s: Store) {
    && (forall i :: 0 <= i < |s.invocations| ==> h.marker(s.invocations[i]) in s.consumed)
    && (forall i, j :: 0 <= i < j < |s.invocations| ==> h.marker(s.invocations[i]) != h.marker(s.invocations[j]))
  }

  lemma NextOnce(h: Hashes, s: Store, e: Event)
    requires Once(h, s)
    ensures Once(h, Next(h, s, e)) && s.consumed <= Next(h, s, e).consumed && s.invocations <= Next(h, s, e).invocations
  {}

  lemma {:induction false} AfterOnce(h: Hashes, events: seq<Event>)
    ensures Once(h, After(h, events))
  {
    if events != [] {
      AfterOnce(h, events[..|events| - 1]);
      NextOnce(h, After(h, events[..|events| - 1]), events[|events| - 1]);
    }
  }

  lemma {:induction false} CountAtMostOne(h: Hashes, invocations: seq<Candidate>, c: Candidate)
    requires forall i, j :: 0 <= i < j < |invocations| ==> h.marker(invocations[i]) != h.marker(invocations[j])
    ensures Count(invocations, c) <= 1
    ensures Count(invocations, c) == 1 <==> c in invocations
  {
    if invocations != [] {
      var n := |invocations| - 1;
      CountAtMostOne(h, invocations[..n], c);
    }
  }

  /** Over every sequence of requests, failures and crashes, a candidate's script runs at most once. */
  lemma AtMostOnce(h: Hashes, events: seq<Event>, c: Candidate)
    ensures Count(After(h, events).invocations, c) <= 1
  {
    AfterOnce(h, events);
    CountAtMostOne(h, After(h, events).invocations, c);
  }

  // ---- One run ----

  /**
   * A run that completes takes exactly one request from the outbox, the first by name; only an empty outbox is idle;
   * a run that is killed takes the same request or none.
   */
  lemma CompletedRemovesOne(h: Hashes, s: Store, w: World)
    ensures Run(h, s, w).1.Idle? <==> s.outbox == map[]
    ensures Run(h, s, w).1.Idle? ==> Run(h, s, w).0 == s
    ensures Run(h, s, w).1.Completed? ==>
              && s.outbox.Keys != {}
              && Run(h, s, w).0.outbox == s.outbox - {Least(s.outbox.Keys)}
              && |Run(h, s, w).0.outbox| == |s.outbox| - 1
    ensures Run(h, s, w).1.Crashed? ==>
              && s.outbox.Keys != {}
              && Run(h, s, w).0.outbox == if w.crash.DuringArchive? then s.outbox - {Least(s.outbox.Keys)} else s.outbox
  {
    if s.outbox.Keys != {} {
      var name := Least(s.outbox.Keys);
      assert s.outbox != map[];
      assert (s.outbox - {name}).Keys == s.outbox.Keys - {name};
    }
  }

  // ---- Who is invoked ----

  /** The event is a run that creates the marker of `c`. */
  ghost predicate Takes(h: Hashes, s: Store, e: Event, c: Candidate) {
    && e.RunOnce? && s.outbox.Keys != {}
    && var name := Least(s.outbox.Keys);
       && Acceptable(name, s.outbox[name], e.world) && s.outbox[name].request.value.candidate == c
       && e.world.releaseActive && h.marker(c) !in s.consumed && e.world.markerWritten
  }

  ghost predicate TakesAt(h: Hashes, events: seq<Event>, k: nat, c: Candidate) {
    k < |events| && Takes(h, After(h, events[..k]), events[k], c)
  }

  /** Past the marker, every check holds and the run is not killed before the script starts. */
  predicate ReachesScript(w: World) {
    w.revalidated && w.materialized && w.scriptOk && !w.crash.AfterMarker? && !w.crash.BeforeInvocation?
  }

  lemma NextTakes(h: Hashes, s: Store, e: Event)
    ensures forall m :: m in Next(h, s, e).consumed <==>
            m in s.consumed || exists c :: Takes(h, s, e, c) && h.marker(c) == m
    ensures forall c :: c in Next(h, s, e).invocations <==>
                        c in s.invocations || (Takes(h, s, e, c) && ReachesScript(e.world))
  {
    if e.RunOnce? && s.outbox.Keys != {} {
      var file := s.outbox[Least(s.outbox.Keys)];
      if file.request.Some? {
        assert Takes(h, s, e, file.request.value.candidate) || forall c :: !Takes(h, s, e, c);
      }
    }
  }

  /** Some run of the sequence created the marker. */
  ghost predicate EverTaken(h: Hashes, events: seq<Event>, m: Marker) {
    exists k: nat, c :: TakesAt(h, events, k, c) && h.marker(c) == m
  }

  /** The run that created the marker of `c` reached the script. */
  ghost predicate EverReached(h: Hashes, events: seq<Event>, c: Candidate) {
    exists k: nat :: ReachesAt(h, events, k, c)
  }

  ghost predicate ReachesAt(h: Hashes, events: seq<Event>, k: nat, c: Candidate) {
    TakesAt(h, events, k, c) && ReachesScript(events[k].world)
  }

  lemma ReachesBefore(h: Hashes, events: seq<Event>, k: nat, c: Candidate)
    requires k < |events| - 1
    ensures ReachesAt(h, events, k, c) <==> ReachesAt(h, events[..|events| - 1], k, c)
  {
    TakesBefore(h, events, k, c);
    assert events[..|events| - 1][k] == events[k];
  }

  lemma TakesBefore(h: Hashes, events: seq<Event>, k: nat, c: Candidate)
    requires k < |events| - 1
    ensures TakesAt(h, events, k, c) <==> TakesAt(h, events[..|events| - 1], k, c)
  {
    assert events[..|events| - 1][..k] == events[..k];
  }

  lemma EverTakenNext(h: Hashes, events: seq<Event>, m: Marker)
    requires events != []
    ensures var front, last := events[..|events| - 1], events[|events| - 1];
            EverTaken(h, events, m) <==>
            EverTaken(h, front, m) || exists c :: Takes(h, After(h, front), last, c) && h.marker(c) == m
  {
    var n := |events| - 1;
    var front := events[..n];
    if EverTaken(h, events, m) {
      var k: nat, c :| TakesAt(h, events, k, c) && h.marker(c) == m;
      if k < n { TakesBefore(h, events, k, c); }
    }
    if EverTaken(h, front, m) {
      var k: nat, c :| TakesAt(h, front, k, c) && h.marker(c) == m;
      TakesBefore(h, events, k, c);
    }
    if c :| Takes(h, After(h, front), events[n], c) && h.marker(c) == m {
      assert TakesAt(h, events, n, c);
    }
  }

  lemma EverReachedNext(h: Hashes, events: seq<Event>, c: Candidate)
    requires events != []
    ensures var front, last := events[..|events| - 1], events[|events| - 1];
            EverReached(h, events, c) <==>
            EverReached(h, front, c) || (Takes(h, After(h, front), last, c) && ReachesScript(last.world))
  {
    var n := |events| - 1;
    var front := events[..n];
    if EverReached(h, events, c) {
      var k: nat :| ReachesAt(h, events, k, c);
      if k < n { ReachesBefore(h, events, k, c); }
    }
    if EverReached(h, front, c) {
      var k: nat :| ReachesAt(h, front, k, c);
      ReachesBefore(h, events, k, c);
    }
    if Takes(h, After(h, front), events[n], c) && ReachesScript(events[n].world) {
      assert ReachesAt(h, events, n, c);
    }
  }

  /** A marker is there exactly when some run of the past created it. */
  lemma {:induction false} ConsumedIff(h: Hashes, events: seq<Event>, m: Marker)
    ensures m in After(h, events).consumed <==> EverTaken(h, events, m)
  {
    if events != [] {
      var front := events[..|events| - 1];
      ConsumedIff(h, front, m);
      EverTakenNext(h, events, m);
      NextTakes(h, After(h, front), events[|events| - 1]);
    }
  }

  /** A candidate is ever invoked exactly when the run that created its marker reached the script. */
  lemma {:induction false} InvokedIff(h: Hashes, events: seq<Event>, c: Candidate)
    ensures c in After(h, events).invocations <==> EverReached(h, events, c)
  {
    if events != [] {
      var front := events[..|events| - 1];
      InvokedIff(h, front, c);
      EverReachedNext(h, events, c);
      NextTakes(h, After(h, front), events[|events| - 1]);
    }
  }

  /** No two runs create the same marker, so a candidate that misses its one chance is never invoked. */
  lemma TakenOnce(h: Hashes, events: seq<Event>, j: nat, c: Candidate, k: nat, d: Candidate)
    requires TakesAt(h, events, j, c) && TakesAt(h, events, k, d) && h.marker(c) == h.marker(d)
    ensures j == k && c == d
  {
    if j < k {
      TakenBefore(h, events, j, c, k, d);
    } else if k < j {
      TakenBefore(h, events, k, d, j, c);
    }
  }

  lemma TakenBefore(h: Hashes, events: seq<Event>, j: nat, c: Candidate, k: nat, d: Candidate)
    requires TakesAt(h, events, j, c) && j < k <= |events|
    ensures h.marker(c) in After(h, events[..k]).consumed
  {
    assert events[..k][..j] == events[..j];
    assert TakesAt(h, events[..k], j, c);
    ConsumedIff(h, events[..k], h.marker(c));
  }

  /**
   * A request is answered as replayed exactly when some earlier run created a marker with its digest, whatever came of
   * that run.
   */
  lemma ReplayRejectedIff(h: Hashes, events: seq<Event>, w: World)
    requires After(h, events).outbox.Keys != {} && !w.crash.BeforeArchive? && !w.crash.DuringArchive?
    ensures var s := After(h, events); var name := Least(s.outbox.Keys);
            Run(h, s, w).1 == Completed(Rejected(RequestReplayed)) <==>
            && Acceptable(name, s.outbox[name], w) && w.releaseActive
            && EverTaken(h, events, h.marker(s.outbox[name].request.value.candidate))
  {
    var s := After(h, events);
    var file := s.outbox[Least(s.outbox.Keys)];
    if file.request.Some? {
      ConsumedIff(h, events, h.marker(file.request.value.candidate));
    }
  }

  /** Once a candidate has been invoked, no later request for it is invoked again, whatever else it carries. */
  lemma InvokedThenRejected(h: Hashes, events: seq<Event>, w: World, c: Candidate)
    requires c in After(h, events).invocations
    requires After(h, events).outbox.Keys != {}
    requires var file := After(h, events).outbox[Least(After(h, events).outbox.Keys)];
             file.request.Some? && file.request.value.candidate == c
    ensures Run(h, After(h, events), w).0.invocations == After(h, events).invocations
  {
    AfterOnce(h, events);
  }

  // ---- What the reports say ----

  /** No report claims an activation that was not invoked, so the marker of every activated report is there. */
  lemma {:induction false} ReportsTruthful(h: Hashes, events: seq<Event>)
    ensures forall d :: d in After(h, events).results && After(h, events).results[d].Activated? ==>
              && After(h, events).results[d].candidate in After(h, events).invocations
              && h.marker(After(h, events).results[d].candidate) in After(h, events).consumed
  {
    AfterOnce(h, events);
    if events != [] {
      ReportsTruthful(h, events[..|events| - 1]);
      AfterOnce(h, events[..|events| - 1]);
      NextOnce(h, After(h, events[..|events| - 1]), events[|events| - 1]);
    }
  }

  /** A run that lives until its report is filed. */
  predicate Files(w: World) {
    w.crash.NoCrash? || w.crash.BeforeArchive? || w.crash.DuringArchive?
  }

  /**
   * A report that says activated survives the next run exactly when that run's request is filed under another digest.
   */
  lemma ActivatedReportKeptIff(h: Hashes, events: seq<Event>, w: World, d: Digest)
    requires After(h, events).outbox.Keys != {} && Files(w)
    requires d in After(h, events).results && After(h, events).results[d].Activated?
    ensures var s := After(h, events); var name := Least(s.outbox.Keys);
            Run(h, s, w).0.results[d] == s.results[d] <==> ResultDigest(h, name, s.outbox[name], w) != d
  {
    ReportsTruthful(h, events);
  }

  /** A world in which nothing fails. */
  function Smooth(): World {
    World(true, true, true, true, true, true, true, NoCrash)
  }

  lemma DeliveredAndRun(h: Hashes, s: Store, name: Name, file: File)
    requires s.outbox == map[]
    ensures var delivered := Next(h, s, Deliver(name, file));
            && delivered.outbox.Keys == {name} && Least({name}) == name
            && delivered.outbox[name] == file && delivered.outbox - {name} == map[]
  {
    OneLeast(name, {name});
    assert map[name := file].Keys == {name};
  }

  /**
   * The same request delivered twice: the script runs once, and the report that said activated now says replayed. The
   * copy has the same name, since a request names its file.
   */
  lemma CopyHidesActivation(h: Hashes, bytes: nat, c: Candidate)
    ensures var file := File(bytes, Some(Request(0, c)), true);
            var once := [Deliver(0, file), RunOnce(Smooth())];
            && After(h, once).results == map[h.bytes(bytes) := Activated(c)]
            && After(h, once + once).results == map[h.bytes(bytes) := Rejected(RequestReplayed)]
            && After(h, once + once).invocations == [c]
  {
    var file := File(bytes, Some(Request(0, c)), true);
    var once := [Deliver(0, file), RunOnce(Smooth())];
    TwoSteps(h, [], once[0], once[1]);
    assert [] + [once[0], once[1]] == once;
    DeliveredAndRun(h, After(h, []), 0, file);
    TwoSteps(h, once, once[0], once[1]);
    assert once + [once[0], once[1]] == once + once;
    DeliveredAndRun(h, After(h, once), 0, file);
  }

  lemma TwoSteps(h: Hashes, events: seq<Event>, a: Event, b: Event)
    ensures After(h, events + [a, b]) == Next(h, Next(h, After(h, events), a), b)
  {
    assert (events + [a, b])[..|events| + 1] == events + [a];
    assert (events + [a])[..|events|] == events;
  }

  // ---- The runner that changes the directories step by step ----

  class Runner {
    const hashes: Hashes
    var outbox: map<Name, File>
    var consumed: set<Marker>
    var results: map<Digest, Report>
    var processed: map<Digest, File>
    var invocations: seq<Candidate>

    constructor (hashes: Hashes)
      ensures this.hashes == hashes && Contents() == After(hashes, [])
    {
      this.hashes := hashes;
      outbox, consumed, results, processed, invocations := map[], {}, map[], map[], [];
    }

    ghost function Contents(): Store
      reads this
    {
      Store(outbox, consumed, results, processed, invocations)
    }

    /** `_consume_marker`: an exclusive create, undone if the marker cannot be written. */
    method ConsumeMarker(candidate: Candidate, written: bool) returns (failure: Option<Rejection>)
      modifies this`consumed
      ensures failure == if hashes.marker(candidate) in old(consumed) then Some(RequestReplayed)
                         else if !written then Some(MarkerFailed) else None
      ensures consumed == if failure.None? then old(consumed) + {hashes.marker(candidate)} else old(consumed)
    {
      var marker := hashes.marker(candidate);
      if marker in consumed {
        return Some(RequestReplayed);
      }
      consumed := consumed + {marker};
      if !written {
        consumed := consumed - {marker};
        return Some(MarkerFailed);
      }
      failure := None;
    }

    /** The `try` block of `run_once`; None when the run is killed inside it. */
    method Attempt(name: Name, file: File, w: World) returns (report: Option<Report>)
      modifies this`consumed, this`invocations
      ensures Process(hashes, old(Contents()), name, file, w) == Effect(report, consumed, invocations)
    {
      if !Acceptable(name, file, w) {
        return Some(Rejected(RequestInvalid));
      }
      if !w.releaseActive {
        return Some(Rejected(ReleaseInvalid));
      }
      var candidate := file.request.value.candidate;
      var failure := ConsumeMarker(candidate, w.markerWritten);
      if failure.Some? {
        return Some(Rejected(failure.value));
      }
      if w.crash.AfterMarker? {
        return None;
      }
      if !w.revalidated {
        return Some(Rejected(RevalidationFailed));
      }
      if !w.materialized {
        return Some(Rejected(MaterializationInvalid));
      }
      if w.crash.BeforeInvocation? {
        return None;
      }
      if !w.scriptOk {
        return Some(Rejected(ScriptInvalid));
      }
      invocations := invocations + [candidate];
      if w.crash.AfterInvocation? {
        return None;
      }
      if !w.activationSucceeds {
        return Some(Rejected(ActivationFailed));
      }
      report := Some(Activated(candidate));
    }

    /** `run_once`. */
    method RunOnce(w: World) returns (outcome: Outcome)
      modifies this
      ensures (Contents(), outcome) == Run(hashes, old(Contents()), w)
    {
      if outbox.Keys == {} {
        return Idle;
      }
      var name := TakeLeast(outbox.Keys);
      OneLeast(name, outbox.Keys);
      var file := outbox[name];
      var report := Attempt(name, file, w);
      if report.None? {
        return Crashed;
      }
      var digest := ResultDigest(hashes, name, file, w);
      results := results[digest := report.value];
      if w.crash.BeforeArchive? {
        return Crashed;
      }
      if file.regular {
        processed := processed[digest := file];
      }
      outbox := outbox - {name};
      if w.crash.DuringArchive? {
        return Crashed;
      }
      outcome := Completed(report.value);
    }
  }

  lemma OneLeast(a: Name, s: set<Name>)
    requires IsLeast(a, s)
    ensures a == Least(s)
  {}
}
