/**
 The configuration watch: a snapshot of a file's metadata and digest, a drift test that looks at the
 metadata first, one-shot reports, and reloading. The file system is a parameter of each call and
 does not change within one call.
 */
module ModelWatch {
  import opened Bytes
  import opened Common

  const PATH_MAX := 1023
  const DEFAULT_INTERVAL := 5000

  type Content = seq<Byte>

  /** A file; `readable` says that it is a regular file whose content can be read. */
  datatype File = Absent | Present(content: Content, sec: int, nsec: int, readable: bool)

  type Disk = map<string, File>

  function Look(disk: Disk, path: string): File {
    if path in disk then disk[path] else Absent
  }

  const FNV_BASIS := 1469598103934665603
  const FNV_PRIME := 1099511628211

  /** Exclusive or of a 64-bit word with a byte, which meets its low eight bits. */
  function XorByte(h: nat, b: Byte): nat {
    h - h % 256 + (((h % 256) as Byte) ^ b) as nat
  }

  /** 64-bit FNV-1a, with the source's offset basis. */
  function Digest(s: Content): nat {
    if s == [] then FNV_BASIS else XorByte(Digest(s[..|s| - 1]), s[|s| - 1]) * FNV_PRIME % U64
  }

  method HashBuffer(s: Content) returns (h: nat)
    ensures h == Digest(s)
  {
    h := FNV_BASIS;
    var i := 0;
    while i < |s|
      invariant i <= |s| && h == Digest(s[..i])
    {
      assert s[..i + 1][..i] == s[..i];
      h := XorByte(h, s[i]) * FNV_PRIME % U64;
      i := i + 1;
    }
    assert s[..i] == s;
  }

  /** Metadata and digest of the file when it was last taken as the baseline. */
  datatype Snapshot = Snapshot(size: nat, sec: int, nsec: int, hash: nat)

  /** One-shot marks: warned by check, reported by tick, drift not yet resolved. */
  datatype Latches = Latches(warned: bool, driftEv: bool, pending: bool)

  const CLEAR := Latches(false, false, false)

  datatype Watch = Watch(
    path: string, snap: Snapshot, valid: bool, latch: Latches, hooked: bool, interval: nat, last: nat, generation: nat)

  datatype Event =
    | Warned(path: string)
    | Drift(path: string, oldHash: nat, newHash: nat)
    | ReloadFailed(path: string)
    | Applied(path: string, hash: nat, generation: nat)

  datatype Outcome = Outcome(watch: Watch, rc: int, events: seq<Event>)

  /** A zeroed watch on a path. */
  function Blank(path: string): Watch {
    Watch(Truncated(path, PATH_MAX), Snapshot(0, 0, 0, 0), false, CLEAR, false, 0, 0, 0)
  }

  // ---------------------------------------------------------------- operations

  /** The drift test: 1 drift, 0 none, -1 watch off. */
  function Detected(w: Watch, f: File): (Watch, int) {
    if !w.valid || w.path == "" then (w, -1)
    else match f
      case Absent => (w.(latch := CLEAR.(pending := true)), 1)
      case Present(content, sec, nsec, readable) =>
        if |content| == w.snap.size && sec == w.snap.sec && nsec == w.snap.nsec then (w.(latch := CLEAR), 0)
        else if readable && |content| == w.snap.size && Digest(content) == w.snap.hash then
          (w.(snap := w.snap.(sec := sec, nsec := nsec), latch := CLEAR), 0)
        else (w.(latch := w.latch.(pending := true)), 1)
  }

  /** The digest a drift event carries: 0 when the content could not be read. */
  function NewHash(f: File): nat {
    if f.Present? && f.readable then Digest(f.content) else 0
  }

  function Checked(w: Watch, f: File): Outcome {
    var (d, rc) := Detected(w, f);
    if rc <= 0 then Outcome(d, rc, [])
    else Outcome(d.(latch := d.latch.(warned := true)), 1, if d.latch.warned then [] else [Warned(w.path)])
  }

  function Period(w: Watch): nat {
    if w.interval != 0 then w.interval else DEFAULT_INTERVAL
  }

  predicate Throttled(w: Watch, now: nat) {
    w.last != 0 && now > w.last && now - w.last < Period(w)
  }

  function Ticked(w: Watch, f: File, now: nat): Outcome {
    if !w.valid then Outcome(w, -1, [])
    else if Throttled(w, now) then Outcome(w, 0, [])
    else
      var (d, rc) := Detected(w.(last := now), f);
      if rc <= 0 then Outcome(d, rc, [])
      else
        var events := if d.latch.driftEv then [] else [Drift(w.path, w.snap.hash, NewHash(f))];
        Outcome(d.(latch := d.latch.(driftEv := true)), 1, events)
  }

  /** The path a rebase goes to. */
  function Target(w: Watch, path: Option<string>): string {
    if path.Some? then Truncated(path.value, PATH_MAX) else w.path
  }

  function Rebased(w: Watch, disk: Disk, path: Option<string>): Outcome {
    var w := w.(path := Target(w, path));
    var f := Look(disk, w.path);
    if w.path == "" then Outcome(w.(valid := false, latch := CLEAR), 0, [])
    else if f.Present? && f.readable then
      Outcome(w.(snap := Snapshot(|f.content|, f.sec, f.nsec, Digest(f.content)), valid := true, latch := CLEAR), 0, [])
    else Outcome(w.(valid := false), -1, [])
  }

  /** Reload, given what the owner's apply callback returned. */
  function Reloaded(w: Watch, disk: Disk, applied: int): Outcome {
    if !w.hooked then Outcome(w, -1, [])
    else if applied != 0 then Outcome(w, applied, if applied < 0 then [ReloadFailed(w.path)] else [])
    else
      var r := Rebased(w, disk, None).watch;
      var g := r.(generation := (r.generation + 1) % U32);
      Outcome(g, 0, [Applied(g.path, g.snap.hash, g.generation)])
  }

  // ---------------------------------------------------------------- histories

  datatype Call =
    | Check
    | Tick(now: nat)
    | Reload(applied: int)
    | Rebase(path: Option<string>)
    | Hook(interval: nat)

  /** A call, and the file system as it finds it. */
  datatype Moment = Moment(disk: Disk, call: Call)

  function Step(w: Watch, m: Moment): Outcome {
    match m.call
    case Check => Checked(w, Look(m.disk, w.path))
    case Tick(now) => Ticked(w, Look(m.disk, w.path), now)
    case Reload(applied) => Reloaded(w, m.disk, applied)
    case Rebase(path) => Rebased(w, m.disk, path)
    case Hook(interval) => Outcome(w.(hooked := true, interval := interval), 0, [])
  }

  /** The watch after a history of calls; initialisation is the rebase to the same path. */
  function After(path: string, h: seq<Moment>): Watch {
    if h == [] then Blank(path) else Step(After(path, h[..|h| - 1]), h[|h| - 1]).watch
  }

  /** Whether a call takes a snapshot, or would if it could. */
  predicate TakesSnapshot(w: Watch, c: Call) {
    c.Rebase? || Applies(w, c)
  }

  /** The content that was last taken as the baseline. */
  function Baseline(path: string, h: seq<Moment>): Option<Content> {
    if h == [] then None
    else
      var before, m := h[..|h| - 1], h[|h| - 1];
      var now := After(path, h);
      var f := Look(m.disk, now.path);
      if TakesSnapshot(After(path, before), m.call) && now.valid && f.Present? then Some(f.content)
      else Baseline(path, before)
  }

  /** Two sightings of one file: the same stamp, or the same size and digest, only with the same content. */
  predicate Agree(f: File, g: File) {
    f.Present? && g.Present? && |f.content| == |g.content| ==>
      (f.sec == g.sec && f.nsec == g.nsec) || Digest(f.content) == Digest(g.content) ==> f.content == g.content
  }

  ghost predicate Trusted(h: seq<Moment>) {
    forall i, j, p :: 0 <= i < |h| && 0 <= j < |h| ==> Agree(Look(h[i].disk, p), Look(h[j].disk, p))
  }

  // ---------------------------------------------------------------- drift means changed content

  /** The watch's stamp was seen on this disk together with the baseline. */
  predicate Anchors(disk: Disk, w: Watch, base: Content) {
    var f := Look(disk, w.path);
    f.Present? && f.content == base && f.sec == w.snap.sec && f.nsec == w.snap.nsec
  }

  ghost predicate Anchored(path: string, h: seq<Moment>) {
    var w := After(path, h);
    w.valid ==>
      && w.path != "" && Baseline(path, h).Some?
      && w.snap.size == |Baseline(path, h).value| && w.snap.hash == Digest(Baseline(path, h).value)
      && exists i :: 0 <= i < |h| && Anchors(h[i].disk, w, Baseline(path, h).value)
  }

  /** The stamp and digest of `w` belong to `base`, the stamp as `seen`. */
  predicate Holds(w: Watch, base: Content, seen: File) {
    && w.valid && w.path != "" && w.snap.size == |base| && w.snap.hash == Digest(base)
    && seen.Present? && seen.content == base && seen.sec == w.snap.sec && seen.nsec == w.snap.nsec
  }

  /** The drift test tells the baseline from other content, and its stamp stays one of the baseline's. */
  lemma {:induction false} DetectedExact(w: Watch, base: Content, seen: File, f: File)
    requires Holds(w, base, seen) && Agree(seen, f)
    ensures Detected(w, f).1 == 0 ==> f.Present? && f.content == base
    ensures f.Present? && f.readable && f.content == base ==> Detected(w, f).1 == 0
    ensures Holds(Detected(w, f).0, base, seen) || Holds(Detected(w, f).0, base, f)
  {
  }

  /** Check and tick change path, snapshot and validity as the drift test does, or not at all. */
  lemma {:induction false} StepIsTest(w: Watch, m: Moment)
    requires m.call.Check? || m.call.Tick?
    ensures var v, d := Step(w, m).watch, Detected(w, Look(m.disk, w.path)).0;
      v.path == w.path && v.valid == w.valid && (v.snap == w.snap || v.snap == d.snap)
  {
  }

  lemma {:induction false} TrustedPrefix(h: seq<Moment>, n: nat)
    requires Trusted(h) && n <= |h|
    ensures Trusted(h[..n])
  {
    forall i, j, p | 0 <= i < n && 0 <= j < n ensures Agree(Look(h[..n][i].disk, p), Look(h[..n][j].disk, p)) {
      assert Agree(Look(h[i].disk, p), Look(h[j].disk, p));
    }
  }

  /** A step of the drift test keeps the anchor or moves it to the file just seen. */
  lemma {:induction false} TestKeepsAnchor(path: string, h: seq<Moment>)
    requires h != [] && Trusted(h) && Anchored(path, h[..|h| - 1]) && After(path, h[..|h| - 1]).valid
    requires h[|h| - 1].call.Check? || h[|h| - 1].call.Tick?
    ensures Anchored(path, h)
  {
    var n := |h| - 1;
    var w, v, base := After(path, h[..n]), After(path, h), Baseline(path, h[..n]).value;
    var i :| 0 <= i < n && Anchors(h[..n][i].disk, w, base);
    var f := Look(h[n].disk, w.path);
    assert Agree(Look(h[i].disk, w.path), Look(h[n].disk, w.path));
    DetectedExact(w, base, Look(h[i].disk, w.path), f);
    StepIsTest(w, h[n]);
    assert Anchors(h[i].disk, v, base) || Anchors(h[n].disk, v, base);
  }

  lemma {:induction false} OtherKeepsAnchor(path: string, h: seq<Moment>)
    requires h != [] && Anchored(path, h[..|h| - 1])
    requires !h[|h| - 1].call.Check? && !h[|h| - 1].call.Tick?
    ensures Anchored(path, h)
  {
    var n := |h| - 1;
    var w, v := After(path, h[..n]), After(path, h);
    if v.valid {
      if TakesSnapshot(w, h[n].call) {
        assert Anchors(h[n].disk, v, Baseline(path, h).value);
      } else {
        var i :| 0 <= i < n && Anchors(h[..n][i].disk, w, Baseline(path, h[..n]).value);
        assert Anchors(h[i].disk, v, Baseline(path, h).value);
      }
    }
  }

  lemma {:induction false} RunIsAnchored(path: string, h: seq<Moment>)
    requires Trusted(h)
    ensures Anchored(path, h)
  {
    if h != [] {
      var n := |h| - 1;
      TrustedPrefix(h, n);
      RunIsAnchored(path, h[..n]);
      if h[n].call.Check? || h[n].call.Tick? {
        if After(path, h[..n]).valid {
          TestKeepsAnchor(path, h);
        }
      } else {
        OtherKeepsAnchor(path, h);
      }
    }
  }

  /**
   After any history of calls, edits and touches on a watch that is on: for a readable file, check
   reports drift exactly when the content is not the baseline's. A missing file is drift, and
   no drift always means that the content is the baseline's.
   */
  lemma {:induction false} DriftIffChanged(path: string, h: seq<Moment>, disk: Disk)
    requires Trusted(h + [Moment(disk, Check)]) && After(path, h).valid
    ensures Baseline(path, h).Some?
    ensures var w := After(path, h);
      var f, rc, base := Look(disk, w.path), Checked(w, Look(disk, w.path)).rc, Baseline(path, h).value;
      && (rc == 0 || rc == 1)
      && (f.Present? && f.readable ==> (rc == 1 <==> f.content != base))
      && (rc == 0 ==> f.Present? && f.content == base)
  {
    var all, n := h + [Moment(disk, Check)], |h|;
    TrustedPrefix(all, n);
    assert all[..n] == h;
    RunIsAnchored(path, h);
    var w, base := After(path, h), Baseline(path, h).value;
    var i :| 0 <= i < n && Anchors(h[i].disk, w, base);
    assert Agree(Look(all[i].disk, w.path), Look(all[n].disk, w.path));
    DetectedExact(w, base, Look(h[i].disk, w.path), Look(disk, w.path));
  }

  /** A tick whose time has come reports what check would. */
  lemma {:induction false} TickIsCheck(w: Watch, f: File, now: nat)
    requires !Throttled(w, now)
    ensures Ticked(w, f, now).rc == Checked(w, f).rc
  {
  }

  // ---------------------------------------------------------------- one report for each drift

  predicate ReportsDrift(w: Watch, m: Moment) {
    exists e :: e in Step(w, m).events && e.Drift?
  }

  /** A call that runs the drift test. */
  predicate Tests(w: Watch, c: Call) {
    w.valid && w.path != "" && (c.Check? || (c.Tick? && !Throttled(w, c.now)))
  }

  /** The file was seen back at its baseline. */
  predicate Returned(w: Watch, m: Moment) {
    Tests(w, m.call) && Step(w, m).rc == 0
  }

  predicate Gone(w: Watch, m: Moment) {
    Tests(w, m.call) && Look(m.disk, w.path).Absent?
  }

  /** A rebase that took a snapshot or turned the watch off on purpose. */
  predicate Renewed(w: Watch, m: Moment) {
    TakesSnapshot(w, m.call) && (Step(w, m).watch.valid || Step(w, m).watch.path == "")
  }

  predicate Resolved(w: Watch, m: Moment) {
    Returned(w, m) || Gone(w, m) || Renewed(w, m)
  }

  /** Which moments of a history reported a drift, and which resolved one. */
  function Reports(path: string, h: seq<Moment>): seq<bool> {
    seq(|h|, i requires 0 <= i < |h| => ReportsDrift(After(path, h[..i]), h[i]))
  }

  function Resolutions(path: string, h: seq<Moment>): seq<bool> {
    seq(|h|, i requires 0 <= i < |h| => Resolved(After(path, h[..i]), h[i]))
  }

  /** Moment i reported a drift that nothing before moment n has resolved. */
  predicate Open(reports: seq<bool>, resolutions: seq<bool>, i: int, n: nat)
    requires n <= |reports| == |resolutions|
  {
    0 <= i < n && reports[i] && forall k :: i < k < n ==> !resolutions[k]
  }

  /** How one call moves the latch. */
  lemma {:induction false} LatchStep(w: Watch, m: Moment)
    ensures ReportsDrift(w, m) <==>
      m.call.Tick? && Tests(w, m.call) && Step(w, m).rc == 1 && (!w.latch.driftEv || Gone(w, m))
    ensures Step(w, m).watch.latch.driftEv <==> ReportsDrift(w, m) || (w.latch.driftEv && !Resolved(w, m))
  {
    match m.call
    case Tick(now) =>
      if Step(w, m).events != [] {
        assert Step(w, m).events[0].Drift?;
      }
    case Check =>
    case Reload(applied) =>
    case Rebase(to) =>
    case Hook(interval) =>
  }

  /** A latch that reports set and resolutions clear is set exactly while a report is open. */
  lemma {:induction false} LatchIsOpen(latch: seq<bool>, reports: seq<bool>, resolutions: seq<bool>, n: nat)
    requires |latch| == |reports| + 1 && |reports| == |resolutions| && n <= |reports|
    requires !latch[0] && forall k :: 0 <= k < |reports| ==>
      (latch[k + 1] <==> reports[k] || (latch[k] && !resolutions[k]))
    ensures latch[n] <==> exists i :: Open(reports, resolutions, i, n)
  {
    if n > 0 {
      var m := n - 1;
      LatchIsOpen(latch, reports, resolutions, m);
      assert latch[m + 1] <==> reports[m] || (latch[m] && !resolutions[m]);
      if reports[m] {
        assert Open(reports, resolutions, m, n);
      } else if latch[n] {
        var i :| Open(reports, resolutions, i, m);
        assert Open(reports, resolutions, i, n);
      } else if i :| Open(reports, resolutions, i, n) {
        assert Open(reports, resolutions, i, m);
      }
    }
  }

  lemma {:induction false} LatchIsHistory(path: string, h: seq<Moment>, n: nat)
    requires n <= |h|
    ensures After(path, h[..n]).latch.driftEv <==> exists i :: Open(Reports(path, h), Resolutions(path, h), i, n)
  {
    var latch := seq(|h| + 1, i requires 0 <= i <= |h| => After(path, h[..i]).latch.driftEv);
    var reports, resolutions := Reports(path, h), Resolutions(path, h);
    forall k | 0 <= k < |h| ensures latch[k + 1] <==> reports[k] || (latch[k] && !resolutions[k]) {
      assert h[..k + 1][..k] == h[..k];
      LatchStep(After(path, h[..k]), h[k]);
    }
    LatchIsOpen(latch, reports, resolutions, n);
  }

  /** A tick whose test finds drift reports it exactly when no report is open or the file is missing. */
  lemma {:induction false} ReportsIffNew(path: string, h: seq<Moment>, n: nat)
    requires n < |h| && h[n].call.Tick? && Tests(After(path, h[..n]), h[n].call) &&
      Step(After(path, h[..n]), h[n]).rc == 1
    ensures ReportsDrift(After(path, h[..n]), h[n]) <==>
      Gone(After(path, h[..n]), h[n]) || !exists i :: Open(Reports(path, h), Resolutions(path, h), i, n)
  {
    LatchIsHistory(path, h, n);
    LatchStep(After(path, h[..n]), h[n]);
  }

  lemma {:induction false} AfterSnoc(path: string, h: seq<Moment>, m: Moment)
    ensures After(path, h + [m]) == Step(After(path, h), m).watch
  {
    assert (h + [m])[..|h|] == h;
  }

  /** While the file is missing, every due tick reports it: the watch stays on and the report never counts as open. */
  lemma {:induction false} MissingIsReported(w: Watch, m: Moment)
    requires m.call.Tick? && Tests(w, m.call) && Look(m.disk, w.path).Absent?
    ensures ReportsDrift(w, m)
    ensures var v := Step(w, m).watch; v.valid && v.path == w.path && v.last == m.call.now && v.interval == w.interval
  {
    LatchStep(w, m);
  }

  /** A tick that finds no file at all. */
  function Missing(now: nat): Moment {
    Moment(map[], Tick(now))
  }

  /** After any history that leaves the watch on, two due ticks in a row on a missing file both send the event. */
  lemma {:induction false} MissingIsReportedAgain(path: string, h: seq<Moment>, now: nat, later: nat)
    requires var w := After(path, h); w.valid && w.path != "" && !Throttled(w, now)
    requires later >= now + Period(After(path, h))
    ensures ReportsDrift(After(path, h), Missing(now))
    ensures ReportsDrift(After(path, h + [Missing(now)]), Missing(later))
  {
    AfterSnoc(path, h, Missing(now));
    MissingIsReported(After(path, h), Missing(now));
    MissingIsReported(After(path, h + [Missing(now)]), Missing(later));
  }

  /** Such a history: the first snapshot of a readable file, after which every tick is due. */
  lemma {:induction false} FirstSnapshot(path: string, f: File, start: seq<Moment>, now: nat)
    requires 0 < |path| <= PATH_MAX && f.Present? && f.readable && start == []
    ensures var w := After(path, start + [Moment(map[path := f], Rebase(None))]);
      w.valid && w.path != "" && !Throttled(w, now) && Period(w) == DEFAULT_INTERVAL
  {
    AfterSnoc(path, start, Moment(map[path := f], Rebase(None)));
  }

  /** Between two drift events the file came back to the baseline, a new baseline was taken, or the file was missing. */
  lemma {:induction false} BetweenDrifts(path: string, h: seq<Moment>, i: nat, j: nat)
    requires i < j < |h| && ReportsDrift(After(path, h[..i]), h[i]) && ReportsDrift(After(path, h[..j]), h[j])
    ensures exists k :: i < k <= j && Resolved(After(path, h[..k]), h[k])
  {
    LatchStep(After(path, h[..j]), h[j]);
    ReportsIffNew(path, h, j);
    if !Gone(After(path, h[..j]), h[j]) {
      assert !Open(Reports(path, h), Resolutions(path, h), i, j);
    } else {
      assert Resolved(After(path, h[..j]), h[j]);
    }
  }

  /** What `Returned` means: the content is the baseline's again. */
  lemma {:induction false} ReturnedIsBaseline(path: string, h: seq<Moment>, k: nat)
    requires k < |h| && Trusted(h) && Returned(After(path, h[..k]), h[k])
    ensures var w := After(path, h[..k]);
      && Look(h[k].disk, w.path).Present?
      && Baseline(path, h[..k]) == Some(Look(h[k].disk, w.path).content)
  {
    var all, w := h[..k] + [Moment(h[k].disk, Check)], After(path, h[..k]);
    forall a, b, p | 0 <= a < |all| && 0 <= b < |all| ensures Agree(Look(all[a].disk, p), Look(all[b].disk, p)) {
      assert Agree(Look(h[a].disk, p), Look(h[b].disk, p));
    }
    DriftIffChanged(path, h[..k], h[k].disk);
    if h[k].call.Tick? {
      TickIsCheck(w, Look(h[k].disk, w.path), h[k].call.now);
    }
  }

  /** A drift event names the baseline's digest and the new content's, and the two contents differ. */
  lemma {:induction false} DriftNamesBoth(path: string, h: seq<Moment>, k: nat, e: Event)
    requires k < |h| && Trusted(h) && e in Step(After(path, h[..k]), h[k]).events && e.Drift?
    ensures Baseline(path, h[..k]).Some?
    ensures var w, base := After(path, h[..k]), Baseline(path, h[..k]).value;
      var f := Look(h[k].disk, w.path);
      && e.path == w.path && e.oldHash == Digest(base)
      && (f.Present? && f.readable ==> e.newHash == Digest(f.content) && f.content != base)
      && (f.Absent? || !f.readable ==> e.newHash == 0)
  {
    var all, w := h[..k] + [Moment(h[k].disk, Check)], After(path, h[..k]);
    TrustedPrefix(h, k);
    RunIsAnchored(path, h[..k]);
    forall a, b, p | 0 <= a < |all| && 0 <= b < |all| ensures Agree(Look(all[a].disk, p), Look(all[b].disk, p)) {
      assert Agree(Look(h[a].disk, p), Look(h[b].disk, p));
    }
    DriftIffChanged(path, h[..k], h[k].disk);
    TickIsCheck(w, Look(h[k].disk, w.path), h[k].call.now);
  }

  // ---------------------------------------------------------------- warnings and pending drift

  /** Check warns of a drift. */
  predicate Warns(w: Watch, m: Moment) {
    exists e :: e in Step(w, m).events && e.Warned?
  }

  function Warnings(path: string, h: seq<Moment>): seq<bool> {
    seq(|h|, i requires 0 <= i < |h| => Warns(After(path, h[..i]), h[i]))
  }

  lemma {:induction false} WarnStep(w: Watch, m: Moment)
    ensures Warns(w, m) <==> m.call.Check? && Tests(w, m.call) && Step(w, m).rc == 1 && (!w.latch.warned || Gone(w, m))
    ensures Step(w, m).watch.latch.warned <==> Warns(w, m) || (w.latch.warned && !Resolved(w, m))
    ensures forall e :: e in Step(w, m).events && e.Warned? ==> e.path == w.path
  {
    match m.call
    case Check =>
      if Step(w, m).events != [] {
        assert Step(w, m).events[0].Warned?;
      }
    case Tick(now) =>
    case Reload(applied) =>
    case Rebase(to) =>
    case Hook(interval) =>
  }

  lemma {:induction false} WarnedIsHistory(path: string, h: seq<Moment>, n: nat)
    requires n <= |h|
    ensures After(path, h[..n]).latch.warned <==> exists i :: Open(Warnings(path, h), Resolutions(path, h), i, n)
  {
    var latch := seq(|h| + 1, i requires 0 <= i <= |h| => After(path, h[..i]).latch.warned);
    var warnings, resolutions := Warnings(path, h), Resolutions(path, h);
    forall k | 0 <= k < |h| ensures latch[k + 1] <==> warnings[k] || (latch[k] && !resolutions[k]) {
      assert h[..k + 1][..k] == h[..k];
      WarnStep(After(path, h[..k]), h[k]);
    }
    LatchIsOpen(latch, warnings, resolutions, n);
  }

  /** A check that finds drift warns exactly when no warning is open or the file is missing. */
  lemma {:induction false} WarnsIffNew(path: string, h: seq<Moment>, n: nat)
    requires n < |h| && h[n].call.Check? &&
      Checked(After(path, h[..n]), Look(h[n].disk, After(path, h[..n]).path)).rc == 1
    ensures Warns(After(path, h[..n]), h[n]) <==>
      Gone(After(path, h[..n]), h[n]) || !exists i :: Open(Warnings(path, h), Resolutions(path, h), i, n)
  {
    WarnedIsHistory(path, h, n);
    WarnStep(After(path, h[..n]), h[n]);
  }

  /** A test that found drift. */
  predicate Finds(w: Watch, m: Moment) {
    Tests(w, m.call) && Step(w, m).rc == 1
  }

  /** How one call moves the pending mark: set by a test that finds drift, cleared by the file's return or a renewal. */
  lemma {:induction false} PendingStep(w: Watch, m: Moment)
    ensures Step(w, m).watch.latch.pending <==>
      Finds(w, m) || (w.latch.pending && !Returned(w, m) && !Renewed(w, m))
  {
  }

  // ---------------------------------------------------------------- when ticks test

  /** The interval last set by a hook. */
  function HookInterval(h: seq<Moment>): nat {
    if h == [] then 0
    else if h[|h| - 1].call.Hook? then h[|h| - 1].call.interval
    else HookInterval(h[..|h| - 1])
  }

  /** A tick is due when none was before, the clock is not ahead of the last one, or a whole period has passed. */
  predicate Due(last: nat, interval: nat, now: nat) {
    last == 0 || now <= last || now >= last + if interval == 0 then 5000 else interval
  }

  /** The time of the last due tick of a watch that was on; 0 if there was none. */
  function LastTick(path: string, h: seq<Moment>): nat {
    if h == [] then 0
    else
      var before, c := h[..|h| - 1], h[|h| - 1].call;
      var last := LastTick(path, before);
      if c.Tick? && After(path, before).valid && Due(last, HookInterval(before), c.now) then c.now else last
  }

  lemma {:induction false} TimingStep(w: Watch, m: Moment)
    ensures Step(w, m).watch.interval == if m.call.Hook? then m.call.interval else w.interval
    ensures Step(w, m).watch.last ==
      if m.call.Tick? && w.valid && Due(w.last, w.interval, m.call.now) then m.call.now else w.last
  {
  }

  /** In every history, a tick is skipped exactly when it is not due since the last one that was. */
  lemma {:induction false} ThrottledIff(path: string, h: seq<Moment>, now: nat)
    ensures After(path, h).last == LastTick(path, h) && After(path, h).interval == HookInterval(h)
    ensures Throttled(After(path, h), now) <==> !Due(LastTick(path, h), HookInterval(h), now)
  {
    if h != [] {
      var before, m := h[..|h| - 1], h[|h| - 1];
      ThrottledIff(path, before, now);
      assert h == before + [m];
      AfterSnoc(path, before, m);
      TimingStep(After(path, before), m);
    }
  }

  /** A callback is attached exactly when some call attached one. */
  lemma {:induction false} HookedIff(path: string, h: seq<Moment>)
    ensures After(path, h).hooked <==> exists i :: 0 <= i < |h| && h[i].call.Hook?
  {
    if h != [] {
      var n := |h| - 1;
      HookedIff(path, h[..n]);
      assert h == h[..n] + [h[n]];
      AfterSnoc(path, h[..n], h[n]);
      HookStep(After(path, h[..n]), h[n]);
    }
  }

  lemma {:induction false} HookStep(w: Watch, m: Moment)
    ensures Step(w, m).watch.hooked <==> w.hooked || m.call.Hook?
  {
  }

  // ---------------------------------------------------------------- taking a new baseline

  /** Rebasing: on a readable file the watch is on, at rest and free of drift; an empty path turns it off. */
  lemma {:induction false} RebaseRenews(w: Watch, disk: Disk, to: Option<string>, path: string)
    requires path == if to.None? then w.path else if |to.value| <= 1023 then to.value else to.value[..1023]
    ensures var r, f := Rebased(w, disk, to), Look(disk, path);
      && r.watch.path == path
      && (path != "" && f.Present? && f.readable ==>
            r.rc == 0 && r.watch.valid && r.watch.latch == CLEAR && Detected(r.watch, f) == (r.watch, 0)
            && r.watch.snap == Snapshot(|f.content|, f.sec, f.nsec, Digest(f.content)))
      && (path == "" ==> r.rc == 0 && !r.watch.valid && r.watch.latch == CLEAR)
      && (path != "" && !(f.Present? && f.readable) ==> r.rc == -1 && !r.watch.valid && r.watch.latch == w.latch)
  {
  }

  /**
   Reloading: without a callback nothing happens, a callback that refuses leaves the watch as it was and
   a failure is reported; one that applies takes the new baseline and reports its digest and generation.
   */
  lemma {:induction false} ReloadActs(path: string, h: seq<Moment>, disk: Disk, applied: int)
    ensures var w, r := After(path, h), Reloaded(After(path, h), disk, applied);
      && (!w.hooked ==> r == Outcome(w, -1, []))
      && (w.hooked && applied > 0 ==> r == Outcome(w, applied, []))
      && (w.hooked && applied < 0 ==> r == Outcome(w, applied, [ReloadFailed(w.path)]))
      && (w.hooked && applied == 0 ==>
            && r.rc == 0 && r.watch.path == w.path
            && (w.path != "" && Look(disk, w.path).Present? && Look(disk, w.path).readable ==>
                  r.watch.valid && r.watch.snap.hash == Digest(Look(disk, w.path).content))
            && r.events == [Applied(w.path, r.watch.snap.hash, (Applications(path, h) + 1) % U32)])
  {
    GenerationCounts(path, h);
    NextGeneration(Applications(path, h));
  }

  // ---------------------------------------------------------------- generations

  predicate Applies(w: Watch, c: Call) {
    c.Reload? && c.applied == 0 && w.hooked
  }

  /** Reloads that were applied. */
  function Applications(path: string, h: seq<Moment>): nat {
    if h == [] then 0
    else
      var before, m := h[..|h| - 1], h[|h| - 1];
      Applications(path, before) + if Applies(After(path, before), m.call) then 1 else 0
  }

  lemma {:induction false} StepGeneration(w: Watch, m: Moment)
    ensures Step(w, m).watch.generation == if Applies(w, m.call) then (w.generation + 1) % U32 else w.generation
  {
  }

  lemma {:induction false} NextGeneration(n: nat)
    ensures (n % U32 + 1) % U32 == (n + 1) % U32
  {
  }

  /** The generation counts the applied reloads, and nothing else moves it. */
  lemma {:induction false} GenerationCounts(path: string, h: seq<Moment>)
    ensures After(path, h).generation == Applications(path, h) % U32
  {
    if h != [] {
      var before, m := h[..|h| - 1], h[|h| - 1];
      GenerationCounts(path, before);
      assert h == before + [m];
      AfterSnoc(path, before, m);
      StepGeneration(After(path, before), m);
      NextGeneration(Applications(path, before));
    }
  }

  // ---------------------------------------------------------------- the watch as code

  class Watcher {
    var path: string
    var snap: Snapshot
    var valid: bool
    var latch: Latches
    var hooked: bool
    var interval: nat
    var last: nat
    var generation: nat

    ghost function Now(): Watch
      reads this
    {
      Watch(path, snap, valid, latch, hooked, interval, last, generation)
    }

    constructor ()
      ensures Now() == Blank("")
    {
      path, snap, valid, latch := "", Snapshot(0, 0, 0, 0), false, CLEAR;
      hooked, interval, last, generation := false, 0, 0, 0;
    }

    /** Zeroes the watch and takes the first snapshot. */
    method Init(path: string, daemon: string, disk: Disk) returns (rc: int)
      modifies this
      ensures path == "" || daemon == "" ==> rc == -1 && Now() == old(Now())
      ensures path != "" && daemon != "" ==>
        Now() == After(path, [Moment(disk, Call.Rebase(None))]) && rc == (if valid then 0 else -1)
    {
      if path == "" || daemon == "" {
        return -1;
      }
      this.path, snap, valid, latch := Truncated(path, PATH_MAX), Snapshot(0, 0, 0, 0), false, CLEAR;
      hooked, interval, last, generation := false, 0, 0, 0;
      rc := Rebase(disk, None);
      assert [Moment(disk, Call.Rebase(None))][..0] == [];
    }

    /** Attaches the owner's callback; `present` says whether one was given. */
    method Hook(present: bool, interval: nat) returns (rc: int)
      modifies this`hooked, this`interval
      ensures rc == if present then 0 else -1
      ensures Now() == if present then old(Now()).(hooked := true, interval := interval) else old(Now())
    {
      if !present {
        return -1;
      }
      hooked, this.interval := true, interval;
      return 0;
    }

    method Detect(f: File) returns (rc: int, newHash: nat)
      modifies this
      ensures (Now(), rc) == Detected(old(Now()), f)
      ensures rc == 1 ==> newHash == NewHash(f)
    {
      newHash := 0;
      if !valid || path == "" {
        return -1, newHash;
      }
      if f.Absent? {
        latch := CLEAR.(pending := true);
        return 1, newHash;
      }
      if |f.content| == snap.size && f.sec == snap.sec && f.nsec == snap.nsec {
        latch := CLEAR;
        return 0, newHash;
      }
      if f.readable {
        newHash := HashBuffer(f.content);
        if |f.content| == snap.size && newHash == snap.hash {
          snap := snap.(sec := f.sec, nsec := f.nsec);
          latch := CLEAR;
          return 0, newHash;
        }
      }
      latch := latch.(pending := true);
      return 1, newHash;
    }

    method Check(disk: Disk) returns (rc: int, events: seq<Event>)
      modifies this
      ensures Outcome(Now(), rc, events) == Checked(old(Now()), Look(disk, old(path)))
    {
      var newHash;
      events := [];
      rc, newHash := Detect(Look(disk, path));
      if rc > 0 && !latch.warned {
        latch := latch.(warned := true);
        events := [Warned(path)];
      }
    }

    method Tick(disk: Disk, now: nat) returns (rc: int, events: seq<Event>)
      modifies this
      ensures Outcome(Now(), rc, events) == Ticked(old(Now()), Look(disk, old(path)), now)
    {
      events := [];
      if !valid {
        return -1, events;
      }
      var period := if interval != 0 then interval else DEFAULT_INTERVAL;
      if last != 0 && now > last && now - last < period {
        return 0, events;
      }
      last := now;
      var newHash;
      rc, newHash := Detect(Look(disk, path));
      if rc > 0 && !latch.driftEv {
        latch := latch.(driftEv := true);
        events := [Drift(path, snap.hash, newHash)];
      }
    }

    method Rebase(disk: Disk, to: Option<string>) returns (rc: int)
      modifies this
      ensures Outcome(Now(), rc, []) == Rebased(old(Now()), disk, to)
    {
      if to.Some? {
        if to.value == "" {
          path := "";
          valid := false;
          latch := CLEAR;
          return 0;
        }
        path := Truncated(to.value, PATH_MAX);
      }
      if path == "" {
        valid := false;
        latch := CLEAR;
        return 0;
      }
      var f := Look(disk, path);
      if !f.Present? || !f.readable {
        valid := false;
        return -1;
      }
      var hash := HashBuffer(f.content);
      snap := Snapshot(|f.content|, f.sec, f.nsec, hash);
      valid := true;
      latch := CLEAR;
      return 0;
    }

    method Reload(disk: Disk, applied: int) returns (rc: int, events: seq<Event>)
      modifies this
      ensures Outcome(Now(), rc, events) == Reloaded(old(Now()), disk, applied)
    {
      events := [];
      if !hooked {
        return -1, events;
      }
      if applied != 0 {
        if applied < 0 {
          events := [ReloadFailed(path)];
        }
        return applied, events;
      }
      var snapshot := Rebase(disk, None);
      generation := (generation + 1) % U32;
      return 0, [Applied(path, snap.hash, generation)];
    }
  }
}
