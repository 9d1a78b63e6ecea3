/**
 * LinuxSystemEventService: suspend/resume detection on Linux from the text a helper
 * process prints, one line at a time.
 *
 * The primary helper is `dbus-monitor` watching systemd-logind's `PrepareForSleep`
 * signal; its lines drive a two-state parser (idle / armed). If that helper cannot be
 * started or its output fails while the service is still running, a `journalctl`
 * follower is used instead, whose lines are classified one by one.
 *
 * The helpers' output is given as a sequence of lines and the way it ends. The thread
 * that runs `cleanup` concurrently is represented by a number: how many lines the
 * monitor has read when cleanup runs. Cleanup is observed at a loop test, which is
 * where the source's `running` flag is read.
 */
module LinuxEvents {
  import opened Wrappers
  import opened Strings
  import opened PowerEvents
  import opened Basics

  // ------------------------------------------------------------------
  // The primary parser
  // ------------------------------------------------------------------

  /** The header of the `PrepareForSleep` signal: it arms the parser. */
  predicate IsPrepareForSleepHeader(line: string) {
    Contains(line, "signal time=") && Contains(line, "member=PrepareForSleep")
  }

  /** The signal's argument line, `boolean true` or `boolean false`. */
  predicate IsBooleanArgument(line: string) {
    StartsWith(Trim(line), "boolean")
  }

  /** The event an argument line announces: suspend when it mentions `true`. */
  function ArgumentEvent(line: string): (e: PowerEvent)
    ensures e == GoingToSuspend <==> Contains(line, "true")
    ensures e == ResumedFromSuspend <==> !Contains(line, "true")
  {
    if Contains(line, "true") then GoingToSuspend else ResumedFromSuspend
  }

  /** The parser state: whether a header is pending, and the events published so far. */
  datatype Parser = Parser(armed: bool, events: seq<PowerEvent>)

  const Idle := Parser(false, [])

  /** One pass of the loop body: the arming test runs before the argument test. */
  function Step(p: Parser, line: string): Parser {
    var armed := p.armed || IsPrepareForSleepHeader(line);
    if armed && IsBooleanArgument(line) then Parser(false, p.events + [ArgumentEvent(line)])
    else Parser(armed, p.events)
  }

  /** The parser after reading `lines`, in order, from state `p`. */
  function Run(p: Parser, lines: seq<string>): Parser
    decreases |lines|
  {
    if lines == [] then p else Step(Run(p, lines[..|lines| - 1]), lines[|lines| - 1])
  }

  /** The events the primary loop publishes for `lines`. */
  function PrimaryEvents(lines: seq<string>): seq<PowerEvent> {
    Run(Idle, lines).events
  }

  /** The number of signal headers among `lines`. */
  function CountHeaders(lines: seq<string>): (n: nat)
    ensures n <= |lines|
    decreases |lines|
  {
    if lines == [] then 0
    else CountHeaders(lines[..|lines| - 1]) + (if IsPrepareForSleepHeader(lines[|lines| - 1]) then 1 else 0)
  }

  /** Reading `a` and then `b` is reading `a + b`. */
  lemma {:induction false} RunAppend(p: Parser, a: seq<string>, b: seq<string>)
    ensures Run(p, a + b) == Run(Run(p, a), b)
    decreases |b|
  {
    if b == [] {
      assert a + b == a;
    } else {
      assert (a + b)[..|a + b| - 1] == a + b[..|b| - 1];
      assert (a + b)[|a + b| - 1] == b[|b| - 1];
      RunAppend(p, a, b[..|b| - 1]);
    }
  }

  /**
   * While armed, an argument line publishes exactly one event and disarms; the event
   * is suspend exactly when the line mentions `true`. The arming test runs first, so a
   * line that is both a header and an argument publishes at once even from idle.
   */
  lemma ArgumentWhileArmed(p: Parser, line: string)
    requires (p.armed || IsPrepareForSleepHeader(line)) && IsBooleanArgument(line)
    ensures Step(p, line) == Parser(false, p.events + [ArgumentEvent(line)])
    ensures Step(p, line).events[|p.events|] == GoingToSuspend <==> Contains(line, "true")
  {
  }

  /**
   * A line that is not a header changes nothing unless the parser is armed and the
   * line is an argument: an argument seen while idle publishes nothing, and so does a
   * line that passes neither test.
   */
  lemma IgnoredLine(p: Parser, line: string)
    requires !IsPrepareForSleepHeader(line)
    requires !(p.armed && IsBooleanArgument(line))
    ensures Step(p, line) == p
  {
  }

  /** Any number of headers in a row leave one armed flag and publish nothing. */
  lemma {:induction false} HeadersArm(p: Parser, headers: seq<string>)
    requires |headers| > 0
    requires forall i :: 0 <= i < |headers| ==> IsPrepareForSleepHeader(headers[i]) && !IsBooleanArgument(headers[i])
    ensures Run(p, headers) == Parser(true, p.events)
    decreases |headers|
  {
    if |headers| > 1 {
      HeadersArm(p, headers[..|headers| - 1]);
    }
  }

  /** While armed, lines that are not arguments leave the parser as it is. */
  lemma {:induction false} ArmedWaitsForArgument(p: Parser, lines: seq<string>)
    requires p.armed
    requires forall i :: 0 <= i < |lines| ==> !IsBooleanArgument(lines[i])
    ensures Run(p, lines) == p
    decreases |lines|
  {
    if lines != [] {
      ArmedWaitsForArgument(p, lines[..|lines| - 1]);
    }
  }

  /**
   * A header, then any lines that are not arguments, then an argument: exactly one
   * event, the one the argument announces, and the parser is idle again.
   */
  lemma SignalThenArgument(header: string, between: seq<string>, argument: string)
    requires IsPrepareForSleepHeader(header) && !IsBooleanArgument(header)
    requires forall i :: 0 <= i < |between| ==> !IsBooleanArgument(between[i])
    requires IsBooleanArgument(argument)
    ensures Run(Idle, [header] + between + [argument]) == Parser(false, [ArgumentEvent(argument)])
  {
    var armed := Parser(true, []);
    assert Run(Idle, [header]) == armed by {
      assert [header][..0] == [];
    }
    ArmedWaitsForArgument(armed, between);
    RunAppend(Idle, [header], between);
    RunAppend(Idle, [header] + between, [argument]);
    assert [argument][..0] == [];
  }

  /**
   * Every event is paid for by a distinct header: the events published, plus one for a
   * pending header, never exceed the headers read (plus one if `p` was armed).
   * Published events are never taken back.
   */
  lemma {:induction false} EventsBoundedByHeaders(p: Parser, lines: seq<string>)
    ensures p.events <= Run(p, lines).events
    ensures |Run(p, lines).events| - |p.events| + (if Run(p, lines).armed then 1 else 0)
         <= CountHeaders(lines) + (if p.armed then 1 else 0)
    decreases |lines|
  {
    if lines != [] {
      EventsBoundedByHeaders(p, lines[..|lines| - 1]);
    }
  }

  /** From idle, at most one event per header line. */
  lemma PrimaryEventsBounded(lines: seq<string>)
    ensures |PrimaryEvents(lines)| <= CountHeaders(lines) <= |lines|
  {
    EventsBoundedByHeaders(Idle, lines);
  }

  /** Reading more lines only appends events. */
  lemma PrimaryEventsGrow(lines: seq<string>, i: nat, j: nat)
    requires i <= j <= |lines|
    ensures PrimaryEvents(lines[..i]) <= PrimaryEvents(lines[..j])
  {
    assert lines[..j] == lines[..i] + lines[i..j];
    RunAppend(Idle, lines[..i], lines[i..j]);
    EventsBoundedByHeaders(Run(Idle, lines[..i]), lines[i..j]);
  }

  // ------------------------------------------------------------------
  // The fallback classifier
  // ------------------------------------------------------------------

  /** A journal line announcing that a suspend, hibernate or hybrid suspend starts. */
  predicate IsSleepStart(line: string) {
    || Contains(line, "Starting Suspend...")
    || Contains(line, "Starting Hibernate...")
    || Contains(line, "Starting Hybrid Suspend...")
  }

  /** A journal line announcing that one of them has finished. */
  predicate IsSleepFinish(line: string) {
    || Contains(line, "Finished Suspend.")
    || Contains(line, "Finished Hibernate.")
    || Contains(line, "Finished Hybrid Suspend.")
  }

  /** The event one journal line publishes, if any; the start test takes precedence. */
  function FallbackEvent(line: string): (r: Option<PowerEvent>)
    ensures r == Some(GoingToSuspend) <==> IsSleepStart(line)
    ensures r == Some(ResumedFromSuspend) <==> !IsSleepStart(line) && IsSleepFinish(line)
    ensures r == None <==> !IsSleepStart(line) && !IsSleepFinish(line)
  {
    if IsSleepStart(line) then Some(GoingToSuspend)
    else if IsSleepFinish(line) then Some(ResumedFromSuspend)
    else None
  }

  /** A line that announces both a start and a finish publishes only the suspend. */
  lemma StartTakesPrecedence(line: string)
    requires IsSleepStart(line) && IsSleepFinish(line)
    ensures FallbackEvents([line]) == [GoingToSuspend]
  {
    assert [line][..0] == [];
  }

  function OptionToSeq(r: Option<PowerEvent>): seq<PowerEvent> {
    if r.Some? then [r.value] else []
  }

  /** The events the fallback loop publishes for `lines`. */
  function FallbackEvents(lines: seq<string>): seq<PowerEvent>
    decreases |lines|
  {
    if lines == [] then []
    else FallbackEvents(lines[..|lines| - 1]) + OptionToSeq(FallbackEvent(lines[|lines| - 1]))
  }

  /** The number of journal lines that announce a start or a finish. */
  function CountSleepLines(lines: seq<string>): nat
    decreases |lines|
  {
    if lines == [] then 0
    else CountSleepLines(lines[..|lines| - 1]) + (if FallbackEvent(lines[|lines| - 1]).Some? then 1 else 0)
  }

  /**
   * One event per classified line and none for the others, so never more events than
   * lines; reading more lines only appends events.
   */
  lemma {:induction false} FallbackEventsCount(lines: seq<string>, i: nat)
    requires i <= |lines|
    ensures |FallbackEvents(lines)| == CountSleepLines(lines) <= |lines|
    ensures FallbackEvents(lines[..i]) <= FallbackEvents(lines)
    decreases |lines|
  {
    if lines != [] {
      var init := lines[..|lines| - 1];
      if i < |lines| {
        assert lines[..i] == init[..i];
        FallbackEventsCount(init, i);
      } else {
        assert lines[..i] == lines;
        FallbackEventsCount(init, 0);
      }
    }
  }

  // ------------------------------------------------------------------
  // The whole monitor
  // ------------------------------------------------------------------

  /** How a helper's output ends: `readLine` returns null, or throws `IOException`. */
  datatype Ending = EndOfStream | ReadFailure

  /** A helper process that could not be started, or the lines it printed. */
  datatype HelperRun = StartFailure | Output(lines: seq<string>, ending: Ending)


  /** The number of lines the helper prints. */
  function Length(run: HelperRun): nat {
    if run.Output? then |run.lines| else 0
  }

  /**
   * The primary path ends in an `IOException` while `running` still holds, given that
   * cleanup runs after `k` lines; this is the only way into the fallback. An output
   * that simply ends does not lead to the fallback.
   */
  predicate FallsBack(primary: HelperRun, k: nat) {
    primary.StartFailure? || (primary.ending == ReadFailure && k > |primary.lines|)
  }

  /** The loop of `run` reaches the test at which cleanup, due after `k` lines, is seen. */
  predicate SeesCleanup(run: HelperRun, k: nat) {
    run.Output? && k <= |run.lines|
  }

  /** Cleanup, due after `k` lines, runs while the monitor is still reading. */
  predicate CleanupDuring(primary: HelperRun, fallback: HelperRun, k: nat) {
    SeesCleanup(primary, k) || (FallsBack(primary, k) && SeesCleanup(fallback, k - Length(primary)))
  }

  /** The events published by the fallback loop over `run` when cleanup is due after `k` lines. */
  function FallbackRunEvents(run: HelperRun, k: nat): seq<PowerEvent> {
    if run.Output? then FallbackEvents(run.lines[..Min(k, |run.lines|)]) else []
  }

  /** The events the primary loop publishes when cleanup is due after `k` lines. */
  function PrimaryPart(primary: HelperRun, k: nat): seq<PowerEvent> {
    if primary.Output? then PrimaryEvents(primary.lines[..Min(k, |primary.lines|)]) else []
  }

  /** The events the fallback publishes when cleanup is due after `k` lines: none unless it runs. */
  function FallbackPart(primary: HelperRun, fallback: HelperRun, k: nat): seq<PowerEvent> {
    if FallsBack(primary, k) then FallbackRunEvents(fallback, k - Length(primary)) else []
  }

  /** The events the monitor publishes in all, when cleanup runs after `k` lines. */
  function MonitorEvents(primary: HelperRun, fallback: HelperRun, k: nat): seq<PowerEvent> {
    PrimaryPart(primary, k) + FallbackPart(primary, fallback, k)
  }

  /**
   * Nothing is published without a line read: at most one event per line consumed, so
   * never more than the lines read before cleanup (at most `k`), and never more than the
   * two helpers print in all; the fallback's lines count only when it runs.
   */
  lemma MonitorEventsBounded(primary: HelperRun, fallback: HelperRun, k: nat)
    ensures |MonitorEvents(primary, fallback, k)| <= k
    ensures |MonitorEvents(primary, fallback, k)| <= Length(primary) + Length(fallback)
    ensures !FallsBack(primary, k) ==> |MonitorEvents(primary, fallback, k)| <= Min(k, Length(primary))
  {
    var n := Min(k, Length(primary));
    if primary.Output? {
      PrimaryEventsBounded(primary.lines[..n]);
    }
    if FallsBack(primary, k) && fallback.Output? {
      var f := fallback.lines[..Min(k - Length(primary), |fallback.lines|)];
      FallbackEventsCount(f, 0);
    }
  }

  /**
   * A later cleanup never publishes fewer events: the events when cleanup runs after
   * `k` lines are a prefix of those when it runs after `k + 1`. Once `running` is
   * false, no further line is consumed.
   */
  lemma MonitorEventsGrow(primary: HelperRun, fallback: HelperRun, k: nat)
    ensures MonitorEvents(primary, fallback, k) <= MonitorEvents(primary, fallback, k + 1)
  {
    PrimaryPartGrow(primary, k);
    FallbackPartGrow(primary, fallback, k);
    ConcatGrow(PrimaryPart(primary, k), PrimaryPart(primary, k + 1),
               FallbackPart(primary, fallback, k), FallbackPart(primary, fallback, k + 1));
  }

  lemma PrimaryPartGrow(primary: HelperRun, k: nat)
    ensures PrimaryPart(primary, k) <= PrimaryPart(primary, k + 1)
  {
    if primary.Output? {
      var n := |primary.lines|;
      PrimaryEventsGrow(primary.lines, Min(k, n), Min(k + 1, n));
    }
  }

  /** Once the fallback runs, the primary part is final and only the fallback part grows. */
  lemma FallbackPartGrow(primary: HelperRun, fallback: HelperRun, k: nat)
    ensures FallbackPart(primary, fallback, k) <= FallbackPart(primary, fallback, k + 1)
    ensures FallbackPart(primary, fallback, k) == [] || PrimaryPart(primary, k) == PrimaryPart(primary, k + 1)
  {
    if FallsBack(primary, k) {
      assert FallsBack(primary, k + 1) && k + 1 - Length(primary) == k - Length(primary) + 1;
      FallbackRunEventsGrow(fallback, k - Length(primary));
      if primary.Output? {
        assert Min(k, |primary.lines|) == Min(k + 1, |primary.lines|);
      }
    }
  }

  lemma ConcatGrow<T>(a0: seq<T>, a1: seq<T>, b0: seq<T>, b1: seq<T>)
    requires a0 <= a1 && b0 <= b1
    requires b0 == [] || a0 == a1
    ensures a0 + b0 <= a1 + b1
  {
    if b0 == [] {
      assert a0 + b0 == a0;
      assert (a1 + b1)[..|a0|] == a1[..|a0|];
    } else {
      assert (a1 + b1)[..|a0 + b0|] == a1 + b1[..|b0|];
    }
  }

  lemma FallbackRunEventsGrow(run: HelperRun, j: nat)
    ensures FallbackRunEvents(run, j) <= FallbackRunEvents(run, j + 1)
  {
    if run.Output? {
      var fl := run.lines;
      FallbackEventsCount(fl[..Min(j + 1, |fl|)], Min(j, |fl|));
      assert fl[..Min(j + 1, |fl|)][..Min(j, |fl|)] == fl[..Min(j, |fl|)];
    }
  }

  /** One more line is one more step of the parser. */
  lemma RunStep(lines: seq<string>, n: nat)
    requires n < |lines|
    ensures Run(Idle, lines[..n + 1]) == Step(Run(Idle, lines[..n]), lines[n])
  {
    assert lines[..n + 1][..n] == lines[..n];
  }

  /** The parser never looks at the events already published. */
  lemma StepShift(p: Parser, published: seq<PowerEvent>, line: string)
    ensures Step(Parser(p.armed, published + p.events), line)
            == Parser(Step(p, line).armed, published + Step(p, line).events)
  {
    var e := ArgumentEvent(line);
    assert (published + p.events) + [e] == published + (p.events + [e]);
  }

  /** One more line is one more classified line. */
  lemma FallbackStep(lines: seq<string>, n: nat)
    requires n < |lines|
    ensures FallbackEvents(lines[..n + 1]) == FallbackEvents(lines[..n]) + OptionToSeq(FallbackEvent(lines[n]))
  {
    assert lines[..n + 1][..n] == lines[..n];
  }


  // ------------------------------------------------------------------
  // The service object
  // ------------------------------------------------------------------

  datatype Helper = DbusMonitor | Journalctl

  /** The `dbusProcess` field: no process yet, the helper last started, or a destroyed one. */
  datatype ProcessSlot = NoProcess | Started(helper: Helper) | Destroyed(helper: Helper)

  /** What `cleanup` does to the process: a started helper is destroyed forcibly. */
  function Destroy(p: ProcessSlot): ProcessSlot {
    if p.Started? then Destroyed(p.helper) else p
  }

  /** The helper process that was started last, given whether the monitor was running. */
  function LastStarted(before: ProcessSlot, running: bool, primary: HelperRun, fallback: HelperRun, k: nat): ProcessSlot {
    if running && FallsBack(primary, k) && fallback.Output? then Started(Journalctl)
    else if primary.Output? then Started(DbusMonitor)
    else before
  }

  class LinuxSystemEventService {
    var running: bool
    var dbusProcess: ProcessSlot
    var executorShutdown: bool
    /** The events handed to the application's event publisher, in order. */
    var published: seq<PowerEvent>

    constructor ()
      ensures running && dbusProcess == NoProcess && !executorShutdown && published == []
    {
      running := true;
      dbusProcess := NoProcess;
      executorShutdown := false;
      published := [];
    }

    /** Teardown: stop the loops, destroy a live helper, shut the executor down. Idempotent. */
    method Cleanup()
      modifies this
      ensures !running && executorShutdown
      ensures dbusProcess == Destroy(old(dbusProcess))
      ensures published == old(published)
    {
      running := false;
      if dbusProcess.Started? {
        dbusProcess := Destroyed(dbusProcess.helper);
      }
      executorShutdown := true;
    }

    method PublishEvent(e: PowerEvent)
      modifies this`published
      ensures published == old(published) + [e]
    {
      published := published + [e];
    }

    /** One pass of the `dbus-monitor` loop body. */
    method ParseLine(armed: bool, line: string) returns (armedAfter: bool)
      modifies this`published
      ensures Parser(armedAfter, published) == Step(Parser(armed, old(published)), line)
    {
      armedAfter := armed;
      if IsPrepareForSleepHeader(line) {
        armedAfter := true;
      }
      if armedAfter && IsBooleanArgument(line) {
        var isSuspending := Contains(line, "true");
        armedAfter := false;
        if isSuspending {
          PublishEvent(GoingToSuspend);
        } else {
          PublishEvent(ResumedFromSuspend);
        }
      }
    }

    /**
     * The `dbus-monitor` loop over `lines`, with cleanup due after `budget` lines.
     * Returns the number of lines read.
     */
    method ReadPrimary(lines: seq<string>, budget: nat) returns (read: nat)
      modifies this
      ensures read == (if old(running) then Min(budget, |lines|) else 0)
      ensures published == old(published) + PrimaryEvents(lines[..read])
      ensures running == (old(running) && budget > |lines|)
      ensures old(running) && budget <= |lines| ==> dbusProcess == Destroy(old(dbusProcess)) && executorShutdown
      ensures !(old(running) && budget <= |lines|) ==>
                dbusProcess == old(dbusProcess) && executorShutdown == old(executorShutdown)
    {
      var armed := false;
      read := 0;
      if !running {
        assert published + PrimaryEvents(lines[..0]) == published;
        return;
      }
      if read == budget {
        Cleanup();
      }
      while running && read < |lines|
        invariant read <= |lines| && read <= budget
        invariant running <==> read < budget
        invariant armed == Run(Idle, lines[..read]).armed
        invariant published == old(published) + Run(Idle, lines[..read]).events
        invariant running ==> dbusProcess == old(dbusProcess) && executorShutdown == old(executorShutdown)
        invariant !running ==> dbusProcess == Destroy(old(dbusProcess)) && executorShutdown
        decreases |lines| - read
      {
        ghost var p := Run(Idle, lines[..read]);
        RunStep(lines, read);
        StepShift(p, old(published), lines[read]);
        armed := ParseLine(armed, lines[read]);
        read := read + 1;
        if read == budget {
          Cleanup();
        }
      }
    }

    /** One pass of the `journalctl` loop body. */
    method ClassifyLine(line: string)
      modifies this`published
      ensures published == old(published) + OptionToSeq(FallbackEvent(line))
    {
      if IsSleepStart(line) {
        PublishEvent(GoingToSuspend);
      } else if IsSleepFinish(line) {
        PublishEvent(ResumedFromSuspend);
      }
    }

    /** The `journalctl` loop over `lines`, with cleanup due after `budget` lines. */
    method ReadFallback(lines: seq<string>, budget: nat)
      modifies this
      ensures published == old(published) + (if old(running) then FallbackEvents(lines[..Min(budget, |lines|)]) else [])
      ensures running == (old(running) && budget > |lines|)
      ensures old(running) && budget <= |lines| ==> dbusProcess == Destroy(old(dbusProcess)) && executorShutdown
      ensures !(old(running) && budget <= |lines|) ==>
                dbusProcess == old(dbusProcess) && executorShutdown == old(executorShutdown)
    {
      var read := 0;
      if !running {
        assert published + [] == published;
        return;
      }
      if read == budget {
        Cleanup();
      }
      while running && read < |lines|
        invariant read <= |lines| && read <= budget
        invariant running <==> read < budget
        invariant published == old(published) + FallbackEvents(lines[..read])
        invariant running ==> dbusProcess == old(dbusProcess) && executorShutdown == old(executorShutdown)
        invariant !running ==> dbusProcess == Destroy(old(dbusProcess)) && executorShutdown
        decreases |lines| - read
      {
        FallbackStep(lines, read);
        ClassifyLine(lines[read]);
        AppendAssoc(old(published), FallbackEvents(lines[..read]), OptionToSeq(FallbackEvent(lines[read])));
        read := read + 1;
        if read == budget {
          Cleanup();
        }
      }
      assert read == Min(budget, |lines|);
    }

    /** `startFallbackMonitoring`: start `journalctl` and read it, or give up if it cannot start. */
    method StartFallbackMonitoring(run: HelperRun, budget: nat)
      modifies this
      ensures published == old(published) + (if old(running) then FallbackRunEvents(run, budget) else [])
      ensures running == (old(running) && !SeesCleanup(run, budget))
      ensures executorShutdown == (old(executorShutdown) || (old(running) && SeesCleanup(run, budget)))
      ensures dbusProcess ==
                var slot := if run.Output? then Started(Journalctl) else old(dbusProcess);
                if old(running) && SeesCleanup(run, budget) then Destroy(slot) else slot
    {
      match run
      case StartFailure =>
      case Output(lines, ending) =>
        dbusProcess := Started(Journalctl);
        ReadFallback(lines, budget);
    }

    /** `startMonitoring` once `dbus-monitor` has started and prints `lines`, ending as `ending`. */
    method ReadMonitorOutput(lines: seq<string>, ending: Ending, fallback: HelperRun, cleanupAfter: nat)
      returns (usedFallback: bool)
      modifies this
      ensures var primary := Output(lines, ending);
        && usedFallback == (old(running) && FallsBack(primary, cleanupAfter))
        && published == old(published) + (if old(running) then MonitorEvents(primary, fallback, cleanupAfter) else [])
        && running == (old(running) && !CleanupDuring(primary, fallback, cleanupAfter))
        && executorShutdown == (old(executorShutdown) || (old(running) && CleanupDuring(primary, fallback, cleanupAfter)))
        && dbusProcess ==
             var slot := LastStarted(old(dbusProcess), old(running), primary, fallback, cleanupAfter);
             if old(running) && CleanupDuring(primary, fallback, cleanupAfter) then Destroy(slot) else slot
    {
      dbusProcess := Started(DbusMonitor);
      usedFallback := false;
      if !running {
        assert published + [] == published;
        return;
      }
      var read := ReadPrimary(lines, cleanupAfter);
      ghost var primaryEvents := PrimaryEvents(lines[..Min(cleanupAfter, |lines|)]);
      ghost var primary := Output(lines, ending);
      if running && ending == ReadFailure {
        assert FallsBack(primary, cleanupAfter) && !SeesCleanup(primary, cleanupAfter);
        usedFallback := true;
        StartFallbackMonitoring(fallback, cleanupAfter - |lines|);
        AppendAssoc(old(published), primaryEvents, FallbackRunEvents(fallback, cleanupAfter - |lines|));
      } else {
        assert !FallsBack(primary, cleanupAfter);
        assert CleanupDuring(primary, fallback, cleanupAfter) == SeesCleanup(primary, cleanupAfter);
        assert primaryEvents + [] == primaryEvents;
      }
    }

    /**
     * `startMonitoring`: start `dbus-monitor` and parse its lines; on an `IOException`
     * while still running, switch to the fallback. Cleanup runs after `cleanupAfter`
     * lines have been read in all.
     */
    method StartMonitoring(primary: HelperRun, fallback: HelperRun, cleanupAfter: nat) returns (usedFallback: bool)
      modifies this
      ensures usedFallback == (old(running) && FallsBack(primary, cleanupAfter))
      ensures published == old(published) + (if old(running) then MonitorEvents(primary, fallback, cleanupAfter) else [])
      ensures running == (old(running) && !CleanupDuring(primary, fallback, cleanupAfter))
      ensures executorShutdown == (old(executorShutdown) || (old(running) && CleanupDuring(primary, fallback, cleanupAfter)))
      ensures dbusProcess ==
                var slot := LastStarted(old(dbusProcess), old(running), primary, fallback, cleanupAfter);
                if old(running) && CleanupDuring(primary, fallback, cleanupAfter) then Destroy(slot) else slot
    {
      usedFallback := false;
      match primary
      case StartFailure =>
        if running {
          usedFallback := true;
          StartFallbackMonitoring(fallback, cleanupAfter);
          assert [] + FallbackRunEvents(fallback, cleanupAfter) == FallbackRunEvents(fallback, cleanupAfter);
        } else {
          assert published + [] == published;
        }
      case Output(lines, ending) =>
        usedFallback := ReadMonitorOutput(lines, ending, fallback, cleanupAfter);
    }
  }
}
