/**
 The deployment routine (src/lib/apps/deploy.ts): ordered steps on the host, any of which may fail or be aborted,
 and compensation of the `current` link afterwards. Everything the host answers is part of the request.
 */
module Deployments {
  import opened Wrappers

  /** What the path `current` is. */
  datatype Node = Absent | Link(target: string) | File | Directory

  datatype Phase = Stage | Install | Build | Activate | Health | Routing | Tls | Finalize

  /** How a step ended: normally, or by throwing. */
  datatype Status = Done | Threw {
    predicate IsFailure() { Threw? }
    function PropagateFailure(): Status { Threw }
  }

  datatype Outcome = Active | FailedIn(phase: Phase) | UnreadableLink | Aborted | RollbackThrew

  /** One health check, or anything thrown around it. */
  datatype HealthAnswer = Healthy | Unhealthy | HealthThrew

  /** One certbot run, or anything thrown around it. */
  datatype CertbotAnswer = Issued | Busy | Broken | CertbotThrew

  /** Every answer before the k-th asks for another attempt. */
  ghost predicate FirstHealthy(answers: nat -> HealthAnswer, k: nat) {
    answers(k) == Healthy && forall j: nat | j < k :: answers(j) == Unhealthy
  }

  ghost predicate FirstIssued(answers: nat -> CertbotAnswer, k: nat) {
    answers(k) == Issued && forall j: nat | j < k :: answers(j) == Busy
  }

  /** waitForHealthy succeeds exactly if a check passes within the attempts and nothing is thrown before it. */
  method WaitForHealthy(answers: nat -> HealthAnswer, attempts: int) returns (status: Status, checks: nat)
    ensures status.Done? <==> exists k: nat | k < attempts :: FirstHealthy(answers, k)
    ensures status.Done? ==> checks > 0 && FirstHealthy(answers, checks - 1)
    ensures checks <= if attempts < 0 then 0 else attempts
    ensures status.Threw? ==> checks == attempts || attempts <= 0 || (checks > 0 && answers(checks - 1) == HealthThrew)
  {
    checks := 0;
    while checks < attempts
      invariant checks <= if attempts < 0 then 0 else attempts
      invariant forall j: nat | j < checks :: answers(j) == Unhealthy
    {
      checks := checks + 1;
      if answers(checks - 1) == Healthy {
        assert FirstHealthy(answers, checks - 1);
        return Done, checks;
      }
      if answers(checks - 1) == HealthThrew {
        return Threw, checks;
      }
    }
    return Threw, checks;
  }

  function CertbotLimit(retryAttempts: int): nat {
    if retryAttempts < 1 then 1 else retryAttempts
  }

  /** runCertbotOrThrow tries again only while another certbot is running, and at least once in all. */
  method RunCertbot(answers: nat -> CertbotAnswer, retryAttempts: int) returns (status: Status, runs: nat)
    ensures status.Done? <==> exists k: nat | k == 0 || k < retryAttempts :: FirstIssued(answers, k)
    ensures runs == 1 || 1 <= runs <= retryAttempts
    ensures status.Done? ==> FirstIssued(answers, runs - 1)
    ensures forall j: nat | j < runs - 1 :: answers(j) == Busy
    ensures status.Threw? && answers(runs - 1) == Busy ==> runs >= retryAttempts
  {
    var attempts := CertbotLimit(retryAttempts);
    runs := 0;
    while runs < attempts
      invariant runs <= attempts
      invariant forall j: nat | j < runs :: answers(j) == Busy
    {
      runs := runs + 1;
      if answers(runs - 1) == Issued {
        assert FirstIssued(answers, runs - 1);
        return Done, runs;
      }
      if answers(runs - 1) != Busy {
        return Threw, runs;
      }
    }
    return Threw, runs;
  }

  // ---- the steps and their answers ------------------------------------------------------

  /**
   The steps of the try block in their order. Each phase begins with the report that it started and ends with the
   report that it is completed or skipped.
   */
  type Point = p: nat | p < 39

  const END := 39

  function FirstPoint(phase: Phase): Point {
    match phase
    case Stage => 0
    case Install => 3
    case Build => 6
    case Activate => 9
    case Health => 21
    case Routing => 24
    case Tls => 30
    case Finalize => 35
  }

  function LastPoint(phase: Phase): Point {
    match phase
    case Stage => 2
    case Install => 5
    case Build => 8
    case Activate => 20
    case Health => 23
    case Routing => 29
    case Tls => 34
    case Finalize => 38
  }

  const COPY_SOURCE: Point := 1
  const INSTALL_COMMAND: Point := 4
  const BUILD_COMMAND: Point := 7
  const MAKE_UNIT_DIRECTORY: Point := 10
  const CHECK_ACTIVATION: Point := 11
  const WRITE_UNIT: Point := 12
  const LINK_TEMPORARY: Point := 13
  const REMOVE_CURRENT: Point := 14
  const RENAME_TEMPORARY: Point := 15
  const RELOAD_UNITS: Point := 16
  const ENABLE_SERVICE: Point := 17
  const ANNOUNCE_RESTART: Point := 18
  const RESTART_COMMAND: Point := 19
  const AWAIT_HEALTH: Point := 22
  const CHECK_ROUTING: Point := 25
  const WRITE_ROUTING: Point := 26
  const TEST_NGINX: Point := 27
  const RELOAD_NGINX: Point := 28
  const CERTIFY: Point := 31
  const TEST_NGINX_AGAIN: Point := 32
  const RELOAD_NGINX_AGAIN: Point := 33
  const CHECK_FINALIZE: Point := 36
  const WRITE_SUCCESS: Point := 37

  /** A step passes, throws, or throws with the signal fired by then. */
  datatype Answer = Passes | Throws | Aborts

  /** What the steps around and after the try block meet. */
  datatype Recovery = Recovery(
    lstatWorks: bool,
    readlinkWorks: bool,
    unlinkWorks: bool,
    linkWorks: bool,
    removeWorks: bool,
    renameWorks: bool,
    restartRuns: bool,
    restartExitsZero: bool,
    servedOtherwise: Option<Node>,
    logsWork: bool
  )

  /** What one deployment is asked to do, and how the host answers it. */
  datatype Request = Request(
    release: string,
    tlsEnabled: bool,
    certificateExists: bool,
    healthAttempts: int,
    certbotAttempts: int,
    health: nat -> HealthAnswer,
    certbot: nat -> CertbotAnswer,
    at: Point -> Answer,
    restartExitsZero: bool,
    servedOtherwise: Option<Node>,
    recovery: Recovery
  )

  /** Without TLS only its skipping is reported; with a certificate neither certbot nor nginx runs again. */
  predicate Planned(request: Request, p: Point) {
    && (p == FirstPoint(Tls) || p == CERTIFY ==> request.tlsEnabled)
    && (p == TEST_NGINX_AGAIN || p == RELOAD_NGINX_AGAIN ==> request.tlsEnabled && !request.certificateExists)
  }

  ghost predicate PassedHealthCheck(request: Request) {
    exists k: nat | k < request.healthAttempts :: FirstHealthy(request.health, k)
  }

  ghost predicate CertbotIssues(request: Request) {
    exists k: nat | k < CertbotLimit(request.certbotAttempts) :: FirstIssued(request.certbot, k)
  }

  ghost predicate PointPasses(request: Request, p: Point) {
    && request.at(p).Passes?
    && (p == RESTART_COMMAND ==> request.restartExitsZero)
    && (p == AWAIT_HEALTH ==> PassedHealthCheck(request))
    && (p == CERTIFY ==> request.certificateExists || CertbotIssues(request))
  }

  /** The step does not stop the deployment. */
  ghost predicate StepPasses(request: Request, p: Point) {
    Planned(request, p) ==> PointPasses(request, p)
  }

  ghost function FirstBad(request: Request, n: nat): (r: nat)
    requires n <= END
    ensures n <= r <= END
    decreases END - n
  {
    if n == END || !StepPasses(request, n) then n else FirstBad(request, n + 1)
  }

  lemma {:induction false} FirstBadIs(request: Request, n: nat)
    requires n <= END
    ensures forall m | n <= m < FirstBad(request, n) :: StepPasses(request, m)
    ensures FirstBad(request, n) < END ==> !StepPasses(request, FirstBad(request, n))
    decreases END - n
  {
    if n < END && StepPasses(request, n) {
      FirstBadIs(request, n + 1);
    }
  }

  /** The rank of the step that throws, or END when all pass. */
  ghost function Progress(request: Request): (n: nat)
    ensures n <= END
  {
    FirstBad(request, 0)
  }

  /** How far the steps get is decided by the answers alone. */
  lemma ProgressIff(request: Request, n: nat)
    requires n <= END
    ensures n == Progress(request) <==>
            (forall m | 0 <= m < n :: StepPasses(request, m)) && (n < END ==> !StepPasses(request, n))
  {
    FirstBadIs(request, 0);
    var r := Progress(request);
    if n < r { assert StepPasses(request, n); }
    if r < n { assert !StepPasses(request, r); }
  }

  lemma ProgressAt(request: Request, p: Point)
    requires Planned(request, p) && Progress(request) >= p
    ensures Progress(request) > p <==> PointPasses(request, p)
  {
    FirstBadIs(request, 0);
    if Progress(request) > p { assert StepPasses(request, p); }
  }

  lemma ProgressBeyond(request: Request, p: Point)
    requires !Planned(request, p) && Progress(request) >= p
    ensures Progress(request) > p
  {
    FirstBadIs(request, 0);
  }

  /** The stage that is reported as failed when the step of rank `n` throws. */
  function PhaseAt(request: Request, n: nat): Phase {
    if n < 3 then Stage else if n < 6 then Install else if n < 9 then Build else if n < 21 then Activate
    else if n < 24 then Health else if n < 30 || (n < 35 && !request.tlsEnabled) then Routing
    else if n < 35 then Tls else Finalize
  }

  /** Some step throws with the signal fired by then. */
  ghost predicate IsAborted(request: Request) {
    Progress(request) < END && request.at(Progress(request)).Aborts?
  }

  // ---- what becomes of the link and the service -----------------------------------------

  ghost predicate CurrentRemoved(request: Request) { Progress(request) > REMOVE_CURRENT }
  ghost predicate ReleaseLinked(request: Request) { Progress(request) > RENAME_TEMPORARY }
  ghost predicate RestartIssued(request: Request) { Progress(request) >= RESTART_COMMAND }
  ghost predicate RestartNoted(request: Request) { Progress(request) > RESTART_COMMAND }

  function SeenTarget(before: Node, request: Request): Option<string> {
    if request.recovery.lstatWorks && before.Link? && request.recovery.readlinkWorks then Some(before.target) else None
  }

  /** A symbolic link always has a target of at least one character. */
  predicate HasEarlierTarget(before: Node, request: Request) {
    SeenTarget(before, request).Some? && SeenTarget(before, request).value != ""
  }

  predicate IsUnreadable(before: Node, request: Request) {
    request.recovery.lstatWorks && before.Link? && !request.recovery.readlinkWorks
  }

  ghost function LinkAfterTry(before: Node, request: Request): Node {
    if ReleaseLinked(request) then Link(request.release) else if CurrentRemoved(request) then Absent else before
  }

  /** unlink removes links and files, not directories. */
  function AfterUnlink(found: Node, works: bool): Node {
    if works && (found.Link? || found.File?) then Absent else found
  }

  function AfterReplace(found: Node, target: string, linked: bool, removed: bool, renamed: bool): Node {
    if linked && removed && renamed then Link(target) else if linked && removed then Absent else found
  }

  ghost function ServedAfterTry(served: Option<Node>, request: Request): Option<Node> {
    if !RestartIssued(request) then served
    else if request.restartExitsZero then Some(Link(request.release))
    else request.servedOtherwise
  }

  /** The compensation is entered: something was thrown, and the signal had not fired. */
  ghost predicate Compensates(before: Node, request: Request) {
    !IsUnreadable(before, request) && Progress(request) < END && !IsAborted(request)
  }

  predicate ReplacesLink(request: Request) {
    request.recovery.linkWorks && request.recovery.removeWorks && request.recovery.renameWorks
  }

  /** The compensation restarts the service once the link is back, if the first restart was noted. */
  ghost predicate RestartsAgain(before: Node, request: Request) {
    && Compensates(before, request) && HasEarlierTarget(before, request)
    && RestartNoted(request) && ReplacesLink(request) && request.recovery.restartRuns
  }

  /** The compensation itself goes through. */
  ghost predicate Recovers(before: Node, request: Request) {
    && request.recovery.logsWork
    && (HasEarlierTarget(before, request) ==> ReplacesLink(request) && (RestartNoted(request) ==> request.recovery.restartRuns))
  }

  ghost function OutcomeOf(before: Node, request: Request): Outcome {
    if IsUnreadable(before, request) then UnreadableLink
    else if Progress(request) == END then Active
    else if IsAborted(request) then Aborted
    else if Recovers(before, request) then FailedIn(PhaseAt(request, Progress(request)))
    else RollbackThrew
  }

  ghost function LinkAfter(before: Node, request: Request): Node {
    var found, r := LinkAfterTry(before, request), request.recovery;
    if IsUnreadable(before, request) then before
    else if !Compensates(before, request) then found
    else if HasEarlierTarget(before, request) then AfterReplace(found, before.target, r.linkWorks, r.removeWorks, r.renameWorks)
    else AfterUnlink(found, r.unlinkWorks)
  }

  ghost function ServedAfter(before: Node, served: Option<Node>, request: Request): Option<Node> {
    if IsUnreadable(before, request) then served
    else if !RestartsAgain(before, request) then ServedAfterTry(served, request)
    else if request.recovery.restartExitsZero then Some(before)
    else request.recovery.servedOtherwise
  }

  ghost function RestartsIn(before: Node, request: Request): nat {
    if IsUnreadable(before, request) then 0
    else (if RestartIssued(request) then 1 else 0) + if RestartsAgain(before, request) then 1 else 0
  }

  /** Main result: started from nothing or from a readable link, a failed deployment always ends where it started. */
  lemma FailureRestoresLink(before: Node, request: Request)
    requires OutcomeOf(before, request).FailedIn?
    requires before.Absent? || (before.Link? && before.target != "" && request.recovery.lstatWorks && request.recovery.readlinkWorks)
    requires request.recovery.unlinkWorks
    ensures LinkAfter(before, request) == before
  {
  }

  /**
   Main result: when a failed deployment leaves `current` as it was, for every start. Without an earlier target it
   depends on how far the steps got and on whether the removal works.
   */
  lemma RestoredIff(before: Node, request: Request)
    requires OutcomeOf(before, request).FailedIn?
    ensures LinkAfter(before, request) == before <==>
            match before
            case Absent => request.recovery.unlinkWorks || !ReleaseLinked(request)
            case Link(target) =>
              || HasEarlierTarget(before, request)
              || (!request.recovery.unlinkWorks
                  && (!CurrentRemoved(request) || (ReleaseLinked(request) && target == request.release)))
            case File => !request.recovery.unlinkWorks && !CurrentRemoved(request)
            case Directory => !CurrentRemoved(request)
  {
  }

  /**
   Main result: a deployment that does not become active, but whose restart was issued, restarts the service only
   that once exactly if the signal had fired, no earlier target was read, the restart failed or was not logged, or the
   compensation cannot put the link back or issue its own restart. Otherwise the service is back on the earlier link
   if that second restart succeeds.
   */
  lemma RestartUncompensatedIff(before: Node, served: Option<Node>, request: Request)
    requires !OutcomeOf(before, request).UnreadableLink? && !OutcomeOf(before, request).Active? && RestartIssued(request)
    ensures RestartsIn(before, request) == 1 <==>
            || OutcomeOf(before, request).Aborted?
            || !HasEarlierTarget(before, request)
            || !request.restartExitsZero || !request.at(RESTART_COMMAND).Passes?
            || !ReplacesLink(request) || !request.recovery.restartRuns
    ensures RestartsIn(before, request) in {1, 2}
    ensures ServedAfter(before, served, request)
            == if RestartsIn(before, request) == 1 then ServedAfterTry(served, request)
               else if request.recovery.restartExitsZero then Some(before) else request.recovery.servedOtherwise
  {
    ProgressAt(request, RESTART_COMMAND);
  }

  // ---- the code -------------------------------------------------------------------------

  /** The host as far as the routine changes it, and the routine's own variables. */
  class Host {
    var current: Node
    /** What `current` was when the service last restarted successfully, if that is known. */
    var served: Option<Node>
    /** What was served when the last health check since the last restart passed. */
    var healthy: Option<Node>
    var restarts: nat
    var serviceRestarted: bool
    var activeStage: Phase
    /** The step that threw last. */
    var thrownAt: Point

    constructor (current: Node)
      ensures this.current == current && served == None && healthy == None && restarts == 0
    {
      this.current, served, healthy, restarts := current, None, None, 0;
      serviceRestarted, activeStage, thrownAt := false, Stage, FirstPoint(Stage);
    }

    /** A step whose outcome is `ok`. */
    method Step(request: Request, p: Point, ok: bool) returns (status: Status)
      requires Progress(request) >= p && Planned(request, p) && (ok <==> PointPasses(request, p))
      modifies this`thrownAt
      ensures status == if Progress(request) > p then Done else Threw
      ensures status.Threw? ==> thrownAt == p
    {
      ProgressAt(request, p);
      status := if ok then Done else Threw;
      if !ok { thrownAt := p; }
    }

    method Attempt(request: Request, p: Point) returns (status: Status)
      requires Progress(request) >= p && Planned(request, p)
      requires p != RESTART_COMMAND && p != AWAIT_HEALTH && p != CERTIFY
      modifies this`thrownAt
      ensures status == if Progress(request) > p then Done else Threw
      ensures status.Threw? ==> thrownAt == p
    {
      status := Step(request, p, request.at(p).Passes?);
    }

    method StartStage(request: Request, phase: Phase) returns (status: Status)
      requires Progress(request) >= FirstPoint(phase) && Planned(request, FirstPoint(phase))
      modifies this`activeStage, this`thrownAt
      ensures activeStage == phase
      ensures status == if Progress(request) > FirstPoint(phase) then Done else Threw
      ensures status.Threw? ==> thrownAt == FirstPoint(phase)
    {
      activeStage := phase;
      status := Attempt(request, FirstPoint(phase));
    }

    /** systemctl restart: with exit code 0 the service runs what `current` leads to. */
    method RestartService(exitsZero: bool, otherwise: Option<Node>)
      modifies this`served, this`healthy, this`restarts
      ensures served == if exitsZero then Some(current) else otherwise
      ensures healthy == None && restarts == old(restarts) + 1
    {
      restarts, healthy := restarts + 1, None;
      served := if exitsZero then Some(current) else otherwise;
    }

    /** The new link is built aside and renamed into place; removing the old one is a step of its own. */
    method ReplaceSymlink(target: string, linked: bool, removed: bool, renamed: bool) returns (status: Status)
      modifies this`current
      ensures status.Done? <==> linked && removed && renamed
      ensures current == AfterReplace(old(current), target, linked, removed, renamed)
    {
      if !linked || !removed { return Threw; }
      current := Absent;
      if !renamed { return Threw; }
      current := Link(target);
      return Done;
    }

    /** readCurrentTarget: a failing lstat reads like a missing link, a failing readlink throws. */
    method ReadCurrentTarget(request: Request) returns (status: Status, seen: Option<string>)
      ensures status.Threw? <==> IsUnreadable(current, request)
      ensures seen == SeenTarget(current, request)
    {
      status, seen := Done, None;
      if request.recovery.lstatWorks && current.Link? {
        if !request.recovery.readlinkWorks { return Threw, None; }
        seen := Some(current.target);
      }
    }

    /** The steps up to the point where the new release is prepared and built. */
    method Prepare(request: Request) returns (status: Status)
      modifies this`activeStage, this`thrownAt
      ensures status == if Progress(request) >= FirstPoint(Activate) then Done else Threw
      ensures status.Threw? ==> thrownAt == Progress(request) && activeStage == PhaseAt(request, Progress(request))
    {
      status := Done;
      :- StartStage(request, Stage);
      :- Attempt(request, COPY_SOURCE);
      :- Attempt(request, LastPoint(Stage));
      :- StartStage(request, Install);
      :- Attempt(request, INSTALL_COMMAND);
      :- Attempt(request, LastPoint(Install));
      :- StartStage(request, Build);
      :- Attempt(request, BUILD_COMMAND);
      status := Attempt(request, LastPoint(Build));
    }

    /** replaceSymlink(currentPath, releaseRoot). */
    method LinkRelease(request: Request) returns (status: Status)
      requires Progress(request) >= LINK_TEMPORARY
      modifies this`current, this`thrownAt
      ensures status == if Progress(request) > RENAME_TEMPORARY then Done else Threw
      ensures status.Threw? ==> thrownAt == Progress(request)
      ensures current == LinkAfterTry(old(current), request)
    {
      ghost var before := current;
      var linked, removed, renamed := request.at(LINK_TEMPORARY).Passes?, request.at(REMOVE_CURRENT).Passes?, request.at(RENAME_TEMPORARY).Passes?;
      var _ := ReplaceSymlink(request.release, linked, removed, renamed);
      LinkingDecides(before, request);
      :- Attempt(request, LINK_TEMPORARY);
      :- Attempt(request, REMOVE_CURRENT);
      status := Attempt(request, RENAME_TEMPORARY);
    }

    method ActivateRelease(request: Request) returns (status: Status)
      requires Progress(request) >= FirstPoint(Activate) && !serviceRestarted
      modifies this`current, this`served, this`healthy, this`restarts, this`serviceRestarted, this`activeStage, this`thrownAt
      ensures status == if Progress(request) >= FirstPoint(Health) then Done else Threw
      ensures status.Threw? ==> thrownAt == Progress(request)
      ensures status.Done? ==> healthy == None
      ensures activeStage == Activate
      ensures current == LinkAfterTry(old(current), request)
      ensures served == ServedAfterTry(old(served), request)
      ensures restarts == old(restarts) + (if RestartIssued(request) then 1 else 0)
      ensures serviceRestarted <==> RestartNoted(request)
    {
      status := Done;
      :- StartStage(request, Activate);
      :- Attempt(request, MAKE_UNIT_DIRECTORY);
      :- Attempt(request, CHECK_ACTIVATION);
      :- Attempt(request, WRITE_UNIT);
      :- LinkRelease(request);
      :- Attempt(request, RELOAD_UNITS);
      :- Attempt(request, ENABLE_SERVICE);
      :- Attempt(request, ANNOUNCE_RESTART);
      :- RunRestart(request);
      status := Attempt(request, LastPoint(Activate));
    }

    /** The restart counts as noted only if its command succeeds and is logged. */
    method RunRestart(request: Request) returns (status: Status)
      requires RestartIssued(request) && !serviceRestarted
      modifies this`served, this`healthy, this`restarts, this`serviceRestarted, this`thrownAt
      ensures status == if RestartNoted(request) then Done else Threw
      ensures status.Threw? ==> thrownAt == Progress(request)
      ensures served == if request.restartExitsZero then Some(current) else request.servedOtherwise
      ensures healthy == None && restarts == old(restarts) + 1
      ensures serviceRestarted <==> RestartNoted(request)
    {
      RestartService(request.restartExitsZero, request.servedOtherwise);
      status := Done;
      :- Step(request, RESTART_COMMAND, request.at(RESTART_COMMAND).Passes? && request.restartExitsZero);
      serviceRestarted := true;
    }

    method CheckHealth(request: Request) returns (status: Status)
      requires Progress(request) >= FirstPoint(Health)
      modifies this`healthy, this`activeStage, this`thrownAt
      ensures status == if Progress(request) >= FirstPoint(Routing) then Done else Threw
      ensures status.Threw? ==> thrownAt == Progress(request)
      ensures status.Done? ==> healthy == served
      ensures activeStage == Health
    {
      status := Done;
      :- StartStage(request, Health);
      var waited, _ := WaitForHealthy(request.health, request.healthAttempts);
      :- Step(request, AWAIT_HEALTH, request.at(AWAIT_HEALTH).Passes? && waited.Done?);
      healthy := served;
      status := Attempt(request, LastPoint(Health));
    }

    method RouteTraffic(request: Request) returns (status: Status)
      requires Progress(request) >= FirstPoint(Routing)
      modifies this`activeStage, this`thrownAt
      ensures status == if Progress(request) >= FirstPoint(Tls) then Done else Threw
      ensures status.Threw? ==> thrownAt == Progress(request)
      ensures activeStage == Routing
    {
      status := Done;
      :- StartStage(request, Routing);
      :- Attempt(request, CHECK_ROUTING);
      :- Attempt(request, WRITE_ROUTING);
      :- Attempt(request, TEST_NGINX);
      :- Attempt(request, RELOAD_NGINX);
      status := Attempt(request, LastPoint(Routing));
    }

    method ConfigureTls(request: Request) returns (status: Status)
      requires Progress(request) >= FirstPoint(Tls) && activeStage == Routing
      modifies this`activeStage, this`thrownAt
      ensures status == if Progress(request) >= FirstPoint(Finalize) then Done else Threw
      ensures status.Threw? ==> thrownAt == Progress(request)
      ensures status.Threw? ==> activeStage == PhaseAt(request, Progress(request))
    {
      status := Done;
      if request.tlsEnabled {
        :- StartStage(request, Tls);
        if request.certificateExists {
          :- Step(request, CERTIFY, request.at(CERTIFY).Passes?);
          ProgressBeyond(request, TEST_NGINX_AGAIN);
          ProgressBeyond(request, RELOAD_NGINX_AGAIN);
        } else {
          var certified, _ := RunCertbot(request.certbot, request.certbotAttempts);
          :- Step(request, CERTIFY, request.at(CERTIFY).Passes? && certified.Done?);
          :- Attempt(request, TEST_NGINX_AGAIN);
          :- Attempt(request, RELOAD_NGINX_AGAIN);
        }
      } else {
        ProgressBeyond(request, FirstPoint(Tls));
        ProgressBeyond(request, CERTIFY);
        ProgressBeyond(request, TEST_NGINX_AGAIN);
        ProgressBeyond(request, RELOAD_NGINX_AGAIN);
      }
      status := Attempt(request, LastPoint(Tls));
    }

    method FinalizeRelease(request: Request) returns (status: Status)
      requires Progress(request) >= FirstPoint(Finalize)
      modifies this`activeStage, this`thrownAt
      ensures status == if Progress(request) == END then Done else Threw
      ensures status.Threw? ==> thrownAt == Progress(request)
      ensures activeStage == Finalize
    {
      status := Done;
      :- StartStage(request, Finalize);
      :- Attempt(request, CHECK_FINALIZE);
      :- Attempt(request, WRITE_SUCCESS);
      status := Attempt(request, LastPoint(Finalize));
    }

    /** The try block ends normally exactly if every planned step passes, and otherwise at the first that does not. */
    method TryDeploy(request: Request) returns (status: Status)
      requires !serviceRestarted
      modifies this
      ensures status == if Progress(request) == END then Done else Threw
      ensures status.Done? ==> healthy == served
      ensures status.Threw? ==> thrownAt == Progress(request) && activeStage == PhaseAt(request, Progress(request))
      ensures current == LinkAfterTry(old(current), request)
      ensures served == ServedAfterTry(old(served), request)
      ensures restarts == old(restarts) + (if RestartIssued(request) then 1 else 0)
      ensures serviceRestarted <==> RestartNoted(request)
    {
      status := Done;
      :- Prepare(request);
      :- ActivateRelease(request);
      :- CheckHealth(request);
      :- RouteTraffic(request);
      :- ConfigureTls(request);
      status := FinalizeRelease(request);
    }

    /** The catch block after an error without an abort; reporting the failed stage cannot fail it. */
    method Compensate(request: Request, seen: Option<string>) returns (status: Status)
      modifies this`current, this`served, this`healthy, this`restarts
      ensures var r, target := request.recovery, seen.Some? && seen.value != "";
              && current == (if target then AfterReplace(old(current), seen.value, r.linkWorks, r.removeWorks, r.renameWorks)
                             else AfterUnlink(old(current), r.unlinkWorks))
              && (status.Done? <==>
                    r.logsWork && (target ==> r.linkWorks && r.removeWorks && r.renameWorks && (serviceRestarted ==> r.restartRuns)))
              && var again := target && r.linkWorks && r.removeWorks && r.renameWorks && serviceRestarted && r.restartRuns;
                 && restarts == old(restarts) + (if again then 1 else 0)
                 && served == if !again then old(served) else if r.restartExitsZero then Some(current) else r.servedOtherwise
    {
      var r := request.recovery;
      status := Done;
      if seen.Some? && seen.value != "" {
        :- ReplaceSymlink(seen.value, r.linkWorks, r.removeWorks, r.renameWorks);
        if serviceRestarted {
          if !r.restartRuns { return Threw; }
          RestartService(r.restartExitsZero, r.servedOtherwise);
        }
      } else {
        current := AfterUnlink(current, r.unlinkWorks);
      }
      status := if r.logsWork then Done else Threw;
    }

    /**
     Main result: the outcome, the link, the service and the number of restarts, each decided from the start and the
     host's answers alone. An active deployment has the link on the new release, the service restarted from it and a
     health check passed since. A failed one has the link where it started, if that was nothing or a readable link and
     removing works.
     */
    method Deploy(request: Request) returns (outcome: Outcome)
      modifies this
      ensures outcome == OutcomeOf(old(current), request)
      ensures current == LinkAfter(old(current), request)
      ensures served == ServedAfter(old(current), old(served), request)
      ensures restarts == old(restarts) + RestartsIn(old(current), request)
      ensures outcome.Active? ==> current == Link(request.release) && served == Some(current) && healthy == served
      ensures outcome.Active? ==> PassedHealthCheck(request)
      ensures outcome.Active? && request.tlsEnabled ==> request.certificateExists || CertbotIssues(request)
      ensures outcome.FailedIn? && request.recovery.unlinkWorks
              && (old(current).Absent?
                  || (old(current).Link? && old(current).target != "" && request.recovery.lstatWorks && request.recovery.readlinkWorks))
              ==> current == old(current)
    {
      serviceRestarted, activeStage := false, Stage;
      var read, seen := ReadCurrentTarget(request);
      if read.Threw? { return UnreadableLink; }
      var tried := TryDeploy(request);
      if tried.Done? {
        AllPass(request);
        return Active;
      }
      if request.at(thrownAt).Aborts? { return Aborted; }
      var compensated := Compensate(request, seen);
      outcome := if compensated.Done? then FailedIn(activeStage) else RollbackThrew;
    }
  }

  lemma AllPass(request: Request)
    requires Progress(request) == END
    ensures request.restartExitsZero && PassedHealthCheck(request)
    ensures request.tlsEnabled ==> request.certificateExists || CertbotIssues(request)
  {
    ProgressAt(request, RESTART_COMMAND);
    ProgressAt(request, AWAIT_HEALTH);
    if request.tlsEnabled { ProgressAt(request, CERTIFY); }
  }

  lemma LinkingDecides(before: Node, request: Request)
    requires Progress(request) >= LINK_TEMPORARY
    ensures LinkAfterTry(before, request)
            == AfterReplace(before, request.release, request.at(LINK_TEMPORARY).Passes?, request.at(REMOVE_CURRENT).Passes?,
                            request.at(RENAME_TEMPORARY).Passes?)
  {
    assert forall p: Point | LINK_TEMPORARY <= p <= RENAME_TEMPORARY ::
        Planned(request, p) && (PointPasses(request, p) <==> request.at(p).Passes?);
    ProgressAt(request, LINK_TEMPORARY);
    if Progress(request) >= REMOVE_CURRENT { ProgressAt(request, REMOVE_CURRENT); }
    if Progress(request) >= RENAME_TEMPORARY { ProgressAt(request, RENAME_TEMPORARY); }
  }

  // ---- where compensation falls short ---------------------------------------------------

  /** A host that answers well except at one step. */
  function AnsweringAt(p: Point, answer: Answer, recovery: Recovery): Request {
    Request("new", false, false, 1, 1, k => Healthy, k => Issued, q => if q == p then answer else Passes, p != RESTART_COMMAND,
            None, recovery)
  }

  const SOUND := Recovery(true, true, true, true, true, true, true, true, None, true)

  lemma StopsWhereTold(p: Point, answer: Answer, recovery: Recovery)
    requires Planned(AnsweringAt(p, answer, recovery), p) && !answer.Passes?
    ensures Progress(AnsweringAt(p, answer, recovery)) == p
    ensures IsAborted(AnsweringAt(p, answer, recovery)) <==> answer.Aborts?
  {
    var request := AnsweringAt(p, answer, recovery);
    forall n | 0 <= n < p
      ensures StepPasses(request, n)
    {
      OtherPointsPass(p, answer, recovery, n);
    }
    ProgressIff(request, p);
  }

  lemma OtherPointsPass(p: Point, answer: Answer, recovery: Recovery, n: nat)
    requires n < END && n != p
    ensures StepPasses(AnsweringAt(p, answer, recovery), n)
  {
    var request := AnsweringAt(p, answer, recovery);
    assert FirstHealthy(request.health, 0) && FirstIssued(request.certbot, 0);
  }

  /** A regular file at `current` is deleted although only the build failed and everything else works. */
  lemma FailedBuildDeletesFile() returns (request: Request)
    ensures request == AnsweringAt(BUILD_COMMAND, Throws, SOUND)
    ensures OutcomeOf(File, request) == FailedIn(Build) && LinkAfter(File, request) == Absent
  {
    request := AnsweringAt(BUILD_COMMAND, Throws, SOUND);
    StopsWhereTold(BUILD_COMMAND, Throws, SOUND);
  }

  /** Where nothing was before, an unlink that fails leaves the link to the failed release, and the failure is silent. */
  lemma FailedUnlinkLeavesRelease() returns (request: Request)
    ensures request == AnsweringAt(AWAIT_HEALTH, Throws, SOUND.(unlinkWorks := false))
    ensures OutcomeOf(Absent, request) == FailedIn(Health) && LinkAfter(Absent, request) == Link("new")
  {
    var recovery := SOUND.(unlinkWorks := false);
    request := AnsweringAt(AWAIT_HEALTH, Throws, recovery);
    StopsWhereTold(AWAIT_HEALTH, Throws, recovery);
  }

  /** A failing restart command: the link goes back, but the service is left as the failed restart left it. */
  lemma FailedRestartIsNotCompensated(served: Option<Node>) returns (request: Request)
    ensures request == AnsweringAt(RESTART_COMMAND, Throws, SOUND)
    ensures OutcomeOf(Link("old"), request) == FailedIn(Activate) && LinkAfter(Link("old"), request) == Link("old")
    ensures RestartsIn(Link("old"), request) == 1 && ServedAfter(Link("old"), served, request) == None
  {
    request := AnsweringAt(RESTART_COMMAND, Throws, SOUND);
    StopsWhereTold(RESTART_COMMAND, Throws, SOUND);
  }

  /** The signal fires after a good restart: link and service stay on the new release. */
  lemma AbortIsNotCompensated(served: Option<Node>) returns (request: Request)
    ensures request == AnsweringAt(CHECK_ROUTING, Aborts, SOUND)
    ensures OutcomeOf(Link("old"), request) == Aborted && LinkAfter(Link("old"), request) == Link("new")
    ensures RestartsIn(Link("old"), request) == 1 && ServedAfter(Link("old"), served, request) == Some(Link("new"))
  {
    request := AnsweringAt(CHECK_ROUTING, Aborts, SOUND);
    StopsWhereTold(CHECK_ROUTING, Aborts, SOUND);
  }

  /** The earlier link cannot be renamed into place: no link is left, and the service still runs the new release. */
  lemma BrokenReplacementLosesLink(served: Option<Node>) returns (request: Request)
    ensures request == AnsweringAt(CHECK_ROUTING, Throws, SOUND.(renameWorks := false))
    ensures OutcomeOf(Link("old"), request) == RollbackThrew && LinkAfter(Link("old"), request) == Absent
    ensures RestartsIn(Link("old"), request) == 1 && ServedAfter(Link("old"), served, request) == Some(Link("new"))
  {
    var recovery := SOUND.(renameWorks := false);
    request := AnsweringAt(CHECK_ROUTING, Throws, recovery);
    StopsWhereTold(CHECK_ROUTING, Throws, recovery);
  }

  /** The second restart cannot be issued: the link is back, and the service still runs the new release. */
  lemma BrokenRestartLeavesNewRelease(served: Option<Node>) returns (request: Request)
    ensures request == AnsweringAt(CHECK_ROUTING, Throws, SOUND.(restartRuns := false))
    ensures OutcomeOf(Link("old"), request) == RollbackThrew && LinkAfter(Link("old"), request) == Link("old")
    ensures RestartsIn(Link("old"), request) == 1 && ServedAfter(Link("old"), served, request) == Some(Link("new"))
  {
    var recovery := SOUND.(restartRuns := false);
    request := AnsweringAt(CHECK_ROUTING, Throws, recovery);
    StopsWhereTold(CHECK_ROUTING, Throws, recovery);
  }
}
