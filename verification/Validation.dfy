/** Pipeline and scoring: internal/validation/pipeline.go, scoring.go and validator.go. */
module Validation {
  import opened Bytes
  import opened Addresses
  import opened Mail
  import Resolver

  // ---------- scoring ----------

  datatype Scoring = Scoring(validMin: int, riskyMin: int, syntax: int, tld: int, mx: int, aFallback: int,
                             disposable: int, role: int, typo: int)

  // internal/config/defaults.go
  const DEFAULTS: Scoring := Scoring(80, 40, 30, 10, 35, 15, -60, -15, -10)

  function ClampScore(n: int): int { if n < 0 then 0 else if n > 100 then 100 else n }

  function Points(c: Scoring, m: Letter): int {
    ClampScore((if m.form.normalized != [] then c.syntax else 0)
               + (if m.dns.hasMX then c.mx else if m.dns.hasA then c.aFallback else 0)
               + c.tld
               + (if m.marks.isDisposable then c.disposable else 0)
               + (if m.marks.isRole then c.role else 0)
               + (if m.marks.suggested != [] then c.typo else 0))
  }

  function Scored(c: Scoring, m: Letter): Letter {
    m.(score := Points(c, m),
       status := if m.status.Some? then m.status
                 else if m.marks.isDisposable then Some(Disposable)
                 else if Points(c, m) >= c.validMin then Some(Valid)
                 else if Points(c, m) >= c.riskyMin then Some(Risky) else Some(Invalid))
  }

  method AddUp(c: Scoring, m: Letter) returns (score: int)
    ensures score == Points(c, m)
  {
    score := 0;
    if m.form.normalized != [] {
      score := score + c.syntax;
    }
    if m.dns.hasMX {
      score := score + c.mx;
    } else if m.dns.hasA {
      score := score + c.aFallback;
    }
    score := score + c.tld;
    if m.marks.isDisposable {
      score := score + c.disposable;
    }
    if m.marks.isRole {
      score := score + c.role;
    }
    if m.marks.suggested != [] {
      score := score + c.typo;
    }
    if score < 0 {
      score := 0;
    }
    if score > 100 {
      score := 100;
    }
  }

  method ApplyScore(c: Scoring, e: Email)
    modifies e`score, e`status
    ensures e.View() == Scored(c, old(e.View()))
  {
    var final := e.status;
    var score := AddUp(c, e.View());
    e.score := score;
    if final.None? {
      if e.isDisposable {
        e.status := Some(Disposable);
      } else if score >= c.validMin {
        e.status := Some(Valid);
      } else if score >= c.riskyMin {
        e.status := Some(Risky);
      } else {
        e.status := Some(Invalid);
      }
    }
  }

  // ---------- the pipeline ----------

  // The order of internal/app/app.go.
  const STAGES: seq<StageName> :=
    [NormalizeStage, SyntaxStage, TldStage, TypoStage, DisposableStage, RoleStage, MxStage]

  // One stage and its bookkeeping.
  function Marked(sv: Services, st: StageName, m: Letter): Letter {
    var pass := AfterStage(sv, st, m);
    var m1 := pass.m.(log := Log(pass.m.log.reasons, pass.m.log.stages[st := pass.ok]));
    if Stops(sv, st, m)
    then m1.(failedAt := Some(st), status := if m1.status.None? then Some(Invalid) else m1.status) else m1
  }

  predicate Stops(sv: Services, st: StageName, m: Letter) {
    !AfterStage(sv, st, m).ok && ShortCircuit(st)
  }

  // What the stages make of an e-mail, and how many of them run.
  datatype Course = Course(m: Letter, ran: nat)

  function Run(sv: Services, sts: seq<StageName>, i: nat, m: Letter): Course
    requires i <= |sts|
    decreases |sts| - i
  {
    if i == |sts| then Course(m, i)
    else if Stops(sv, sts[i], m) then Course(Marked(sv, sts[i], m), i + 1)
    else Run(sv, sts, i + 1, Marked(sv, sts[i], m))
  }

  function Pipeline(sv: Services, sts: seq<StageName>, m: Letter): Letter { Run(sv, sts, 0, m).m }

  function Reached(sv: Services, sts: seq<StageName>, m: Letter): nat { Run(sv, sts, 0, m).ran }

  // One turn of the loop: the stage and its bookkeeping.
  method RunOne(sv: Services, st: StageName, e: Email) returns (stop: bool)
    modifies e
    ensures e.View() == Marked(sv, st, old(e.View()))
    ensures stop <==> Stops(sv, st, old(e.View()))
  {
    var passed := e.RunStage(sv, st);
    e.stages := e.stages[st := passed];
    stop := !passed && ShortCircuit(st);
    if stop {
      e.failedAt := Some(st);
      if e.status.None? {
        e.status := Some(Invalid);
      }
    }
  }

  lemma {:induction false} RunsOn(sv: Services, sts: seq<StageName>, i: nat, m: Letter)
    requires i <= |sts|
    ensures i <= Run(sv, sts, i, m).ran
    decreases |sts| - i
  {
    if i < |sts| && !Stops(sv, sts[i], m) { RunsOn(sv, sts, i + 1, Marked(sv, sts[i], m)); }
  }

  lemma RunsOneMore(sv: Services, sts: seq<StageName>, i: nat, m: Letter)
    requires i < |sts|
    ensures i < Run(sv, sts, i, m).ran
  {
    if !Stops(sv, sts[i], m) { RunsOn(sv, sts, i + 1, Marked(sv, sts[i], m)); }
  }

  // aliveAt(i): the context is live before stage i.
  predicate LiveUpTo(aliveAt: nat -> bool, n: nat) { forall i :: 0 <= i < n ==> aliveAt(i) }

  // Before stage i with e-mail m, of a run that makes goal.
  predicate OnTheWay(sv: Services, sts: seq<StageName>, i: nat, m: Letter, goal: Course) {
    i <= |sts| && Run(sv, sts, i, m) == goal
  }

  // The loop carries OnTheWay as a name; only where At is asserted is it looked into.
  type Way = (nat, Letter) -> bool

  predicate At(i: nat, m: Letter) { true }

  ghost predicate IsWay(way: Way, sv: Services, sts: seq<StageName>, goal: Course) {
    forall i, m {:trigger At(i, m)} :: At(i, m) ==> (way(i, m) <==> OnTheWay(sv, sts, i, m, goal))
  }

  method RunPipeline(sv: Services, sts: seq<StageName>, e: Email, aliveAt: nat -> bool) returns (ok: bool)
    modifies e
    ensures ok ==> e.View() == Pipeline(sv, sts, old(e.View()))
    ensures ok <==> LiveUpTo(aliveAt, Reached(sv, sts, old(e.View())))
  {
    ghost var start := e.View();
    ghost var goal := Run(sv, sts, 0, start);
    ghost var way: Way := (i: nat, m: Letter) => OnTheWay(sv, sts, i, m, goal);
    assert At(0, start);
    var i;
    i, ok := RunStages(sv, sts, e, aliveAt, start, goal, way);
  }

  // One turn of the loop, from m to next: unless the context is dead, stage i runs.
  method Advance(sv: Services, sts: seq<StageName>, i: nat, e: Email, alive: bool, ghost m: Letter, ghost goal: Course,
                 ghost way: Way)
    returns (going: bool, ghost next: Letter)
    requires i < |sts| && e.View() == m && IsWay(way, sv, sts, goal) && way(i, m)
    modifies e
    ensures e.View() == next && i < goal.ran
    ensures !going && alive ==> goal == Course(next, i + 1)
    ensures going ==> alive && way(i + 1, next)
  {
    assert At(i, m);
    RunsOneMore(sv, sts, i, m);
    if !alive {
      return false, m;
    }
    var stop := RunOne(sv, sts[i], e);
    next := e.View();
    going := !stop;
    assert At(i + 1, next);
  }

  lemma AtTheEnd(sv: Services, sts: seq<StageName>, i: nat, m: Letter, goal: Course, way: Way)
    requires IsWay(way, sv, sts, goal) && way(i, m) && i >= |sts|
    ensures goal == Course(m, i)
  {
    assert At(i, m);
  }

  // The loop.
  method RunStages(sv: Services, sts: seq<StageName>, e: Email, aliveAt: nat -> bool, ghost start: Letter,
                   ghost goal: Course, ghost way: Way)
    returns (i: nat, ok: bool)
    requires e.View() == start && IsWay(way, sv, sts, goal) && way(0, start)
    modifies e
    ensures LiveUpTo(aliveAt, i)
    ensures if ok then Course(e.View(), i) == goal else i < goal.ran && !aliveAt(i)
  {
    i, ok := 0, true;
    var going := true;
    ghost var m := start;
    while going && i < |sts|
      invariant e.View() == m && LiveUpTo(aliveAt, i)
      invariant going ==> ok && way(i, m)
      invariant !going && ok ==> goal == Course(m, i)
      invariant !ok ==> !going && i < goal.ran && !aliveAt(i)
      decreases |sts| - i, going
    {
      ok := aliveAt(i);
      going, m := Advance(sv, sts, i, e, ok, m, goal, way);
      if ok {
        i := i + 1;
      }
    }
    if going { AtTheEnd(sv, sts, i, m, goal, way); }
  }

  function Validated(sv: Services, c: Scoring, raw: Text): Letter {
    Scored(c, Pipeline(sv, STAGES, New(raw)))
  }

  // As many as the e-mail passes, and the one that stops it.
  function StagesRun(sv: Services, raw: Text): nat {
    if !Accepted(sv.world, raw) then 2 else if !KnownTld(sv, AcceptedForm(sv.world, raw).domain) then 3 else 7
  }

  predicate LiveFor(sv: Services, raw: Text, aliveAt: nat -> bool) { LiveUpTo(aliveAt, StagesRun(sv, raw)) }

  // A live context validates; a dead one returns its error and an unscored e-mail.
  method Validate(sv: Services, c: Scoring, raw: Text, aliveAt: nat -> bool) returns (e: Email, ok: bool)
    ensures fresh(e)
    ensures ok ==> e.View() == Validated(sv, c, raw)
    ensures ok <==> LiveFor(sv, raw, aliveAt)
  {
    StagesRunAre(sv, raw);
    e := new Email(raw);
    ok := RunPipeline(sv, STAGES, e, aliveAt);
    if ok {
      ApplyScore(c, e);
    }
  }

  // ---------- the decision, stated without stages ----------

  datatype Mailable = Yes(viaMX: bool) | No | Unsure

  // What DNS says about taking mail.
  function TakesMail(l: Resolver.Lookup): Mailable {
    match LookupError(l)
    case Some(NXDomain) => No
    case Some(_) => Unsure
    case None => if l.res.hasMX then Yes(true) else if l.res.hasA then Yes(false) else No
  }

  function Evidence(sv: Services, c: Scoring, f: Form, viaMX: bool): int {
    ClampScore(c.syntax + c.tld + (if viaMX then c.mx else c.aFallback)
               + (if sv.disposable(f.domain) then c.disposable else 0)
               + (if sv.role(f.local) then c.role else 0)
               + (if sv.suggest(f.domain) != [] then c.typo else 0))
  }

  // The verdict on a deliverable-looking address.
  function FormVerdict(sv: Services, c: Scoring, f: Form): Status {
    match TakesMail(sv.lookup(f.domain))
    case No => Invalid
    case Unsure => Risky
    case Yes(viaMX) =>
      if sv.disposable(f.domain) then Disposable
      else if Evidence(sv, c, f, viaMX) >= c.validMin then Valid
      else if Evidence(sv, c, f, viaMX) >= c.riskyMin then Risky
      else Invalid
  }

  function Verdict(sv: Services, c: Scoring, raw: Text): Status {
    if Accepted(sv.world, raw) && KnownTld(sv, AcceptedForm(sv.world, raw).domain)
    then FormVerdict(sv, c, AcceptedForm(sv.world, raw)) else Invalid
  }

  // Where the pipeline stops, if it does.
  function StopsAt(sv: Services, raw: Text): Option<StageName> {
    if !Accepted(sv.world, raw) then Some(SyntaxStage)
    else if !KnownTld(sv, AcceptedForm(sv.world, raw).domain) then Some(TldStage)
    else if TakesMail(sv.lookup(AcceptedForm(sv.world, raw).domain)).No? then Some(MxStage) else None
  }

  // ---------- the whole e-mail, stated without stages ----------

  // What Syntax objects to, if anything.
  function SyntaxCode(w: World, raw: Text): Option<Code> {
    var text := Normalize(w, raw).normalized;
    if text == [] then Some(Empty)
    else if |text| > 320 then Some(TooLong)
    else
      match Candidate(w, raw)
      case None => Some(InvalidSyntax)
      case Some(addr) =>
        match PartsFault(addr)
        case None => None
        case Some(LongLocal) => Some(LocalTooLong)
        case Some(LongDomain) => Some(DomainTooLong)
        case Some(NoDot) => Some(DomainNoDot)
        case Some(BadSyntax) => Some(InvalidSyntax)
  }

  // The normalised text after a Syntax stage that rejects.
  function SyntaxLeaves(w: World, raw: Text): Text {
    if Candidate(w, raw).Some? then Candidate(w, raw).value else Normalize(w, raw).normalized
  }

  // The normalised text at the end.
  function FinalText(w: World, raw: Text): Text {
    if Accepted(w, raw) then AcceptedForm(w, raw).normalized else SyntaxLeaves(w, raw)
  }

  function MarksFor(sv: Services, f: Form): Marks {
    var near := sv.suggest(f.domain);
    Marks(if near != [] then f.local + Spelled("@") + near else [], sv.disposable(f.domain), sv.role(f.local))
  }

  // A role account keeps that classification; any other is free or what the classifier says.
  function TagFor(sv: Services, f: Form, takesMail: bool): Tag {
    if !takesMail then Tag(false, if sv.role(f.local) then Role else Unclassified)
    else Tag(sv.free(f.domain),
             if sv.role(f.local) then Role else if sv.free(f.domain) then Free else sv.classify(f.domain))
  }

  function ListReasons(sv: Services, f: Form): seq<Code> {
    (if sv.suggest(f.domain) != [] then [TypoFound] else [])
    + (if sv.disposable(f.domain) then [DisposableDomain] else [])
    + (if sv.role(f.local) then [RoleAccount] else [])
  }

  function DnsReasons(l: Resolver.Lookup): seq<Code> {
    match l
    case NoResult(NXDomain) => [NxDomain]
    case NoResult(RateLimited) => [DnsRateLimited]
    case NoResult(Timeout) => [DnsTimeout]
    case NoResult(ServFail) => [DnsServFail]
    case NoResult(_) => [DnsError]
    case Found(res, _) =>
      match res.status
      case NoDomain => [NxDomain]
      case TimedOut => [DnsTimeout]
      case ServerFailed => [DnsServFail]
      case NoMX => [NoMx]
      case Ok => []
  }

  // Clamped to 0..100.
  function Total(points: int): int {
    if points >= 100 then 100 else if points <= 0 then 0 else points
  }

  function MarkPoints(sv: Services, c: Scoring, f: Form): int {
    (if sv.disposable(f.domain) then c.disposable else 0) + (if sv.role(f.local) then c.role else 0)
    + (if sv.suggest(f.domain) != [] then c.typo else 0)
  }

  // An e-mail the syntax or the TLD stage stopped.
  function Stopped(c: Scoring, raw: Text, f: Form, at: StageName, code: Code, stages: map<StageName, bool>): Letter {
    Letter(raw, f, Dns(false, false), Marks([], false, false), Tag(false, Unclassified), Some(Invalid),
           Total((if f.normalized != [] then c.syntax else 0) + c.tld), Some(at), Log([code], stages))
  }

  // An e-mail that DNS was asked about.
  function LookedUp(sv: Services, c: Scoring, raw: Text, f: Form): Letter {
    var mail := TakesMail(sv.lookup(f.domain));
    var dns := Dns(mail == Yes(true), mail == Yes(false));
    var mailPoints := match mail case Yes(true) => c.mx case Yes(false) => c.aFallback case _ => 0;
    Letter(raw, f, dns, MarksFor(sv, f), TagFor(sv, f, mail.Yes?), Some(FormVerdict(sv, c, f)),
           Total(c.syntax + c.tld + mailPoints + MarkPoints(sv, c, f)),
           if mail.No? then Some(MxStage) else None,
           Log(ListReasons(sv, f) + DnsReasons(sv.lookup(f.domain)),
               map[NormalizeStage := true, SyntaxStage := true, TldStage := true, TypoStage := true,
                   DisposableStage := true, RoleStage := true, MxStage := !mail.No?]))
  }

  // Every field of the validated e-mail.
  function Expected(sv: Services, c: Scoring, raw: Text): Letter {
    var w, n := sv.world, Normalize(sv.world, raw);
    match SyntaxCode(w, raw)
    case Some(code) =>
      Stopped(c, raw, n.(normalized := SyntaxLeaves(w, raw)), SyntaxStage, code,
              map[NormalizeStage := n.normalized != [], SyntaxStage := false])
    case None =>
      AcceptedHasNoCode(w, raw);
      var f := AcceptedForm(w, raw);
      if !KnownTld(sv, f.domain) then
        Stopped(c, raw, f, TldStage, InvalidTld, map[NormalizeStage := true, SyntaxStage := true, TldStage := false])
      else LookedUp(sv, c, raw, f)
  }

  lemma AcceptedHasNoCode(w: World, raw: Text)
    ensures Accepted(w, raw) <==> SyntaxCode(w, raw).None?
  {
    if Candidate(w, raw).Some? { PartsFaultIff(Candidate(w, raw).value); }
  }

  lemma AcceptedIsWhole(w: World, raw: Text)
    requires Accepted(w, raw)
    ensures var f := AcceptedForm(w, raw); f.normalized != [] && f.local != [] && f.domain != []
  {
    Rejoined(Candidate(w, raw).value);
  }

  // ---------- one stage at a time ----------

  // m with a stage recorded.
  function Passed(m: Letter, st: StageName, ok: bool): Letter {
    m.(log := Log(m.log.reasons, m.log.stages[st := ok]))
  }

  function Given(m: Letter, code: Code): Letter {
    m.(log := Log(m.log.reasons + [code], m.log.stages))
  }

  // m stopped at a stage.
  function Halted(m: Letter, f: Form, st: StageName, code: Code): Letter {
    Passed(Given(m.(form := f), code), st, false).(failedAt := Some(st), status := Some(Invalid))
  }

  lemma NormalizeFacts(sv: Services, raw: Text)
    ensures !Stops(sv, NormalizeStage, New(raw))
    ensures var n := Normalize(sv.world, raw);
      Marked(sv, NormalizeStage, New(raw)) == Passed(New(raw).(form := n), NormalizeStage, n.normalized != [])
    ensures Normalize(sv.world, raw).normalized == [] ==> Trim(raw) == []
  {
    assert Clean(raw) == [] <==> Trim(raw) == [];
  }

  // Candidate and its fault, as the stage meets them.
  lemma CandidateFacts(w: World, raw: Text)
    ensures Accepted(w, raw) <==> SyntaxCode(w, raw).None?
    ensures Accepted(w, raw) ==> Candidate(w, raw).Some? && PartsFault(Candidate(w, raw).value).None?
  {
    AcceptedHasNoCode(w, raw);
    if Candidate(w, raw).Some? { PartsFaultIff(Candidate(w, raw).value); }
  }

  // Syntax after Normalize.
  lemma SyntaxAccepts(sv: Services, raw: Text, m: Letter)
    requires m.form == Normalize(sv.world, raw) && Accepted(sv.world, raw)
    ensures AfterSyntax(sv, m) == Pass(m.(form := AcceptedForm(sv.world, raw)), true)
  {
    CandidateFacts(sv.world, raw);
  }

  // What Syntax leaves of an e-mail it objects to.
  function Objected(m: Letter, text: Text, code: Code): Pass {
    Pass(Given(m.(form := m.form.(normalized := text)), code), false)
  }

  lemma UnparsedIsRejected(sv: Services, raw: Text, m: Letter)
    requires m.form == Normalize(sv.world, raw) && Candidate(sv.world, raw).None? && m.original == raw
    requires m.log.reasons == [] && (m.form.normalized == [] ==> Trim(raw) == [])
    ensures SyntaxCode(sv.world, raw).Some?
    ensures AfterSyntax(sv, m) == Objected(m, SyntaxLeaves(sv.world, raw), SyntaxCode(sv.world, raw).value)
  {
  }

  lemma CandidateIsOf(w: World, raw: Text)
    requires Candidate(w, raw).Some?
    ensures var s := Normalize(w, raw).normalized;
      && s != [] && |s| <= 320 && CandidateOf(w, s) == Candidate(w, raw)
      && (FastPath(s) ==> Candidate(w, raw) == Some(s))
  {
  }

  // The parts checks see the candidate as the normalised text.
  lemma PartsAreChecked(sv: Services, raw: Text, m: Letter)
    requires m.form == Normalize(sv.world, raw) && Candidate(sv.world, raw).Some?
    ensures var addr := Candidate(sv.world, raw).value;
      AfterSyntax(sv, m) == AfterParts(m.(form := m.form.(normalized := addr)), addr)
  {
    CandidateIsOf(sv.world, raw);
  }

  lemma FaultHasCode(w: World, raw: Text)
    requires Candidate(w, raw).Some?
    ensures var fault := PartsFault(Candidate(w, raw).value);
      SyntaxCode(w, raw) == if fault.Some? then Some(CodeOf(fault.value)) else None
  {
    CandidateIsOf(w, raw);
  }

  lemma FaultyIsRejected(sv: Services, raw: Text, m: Letter)
    requires m.form == Normalize(sv.world, raw) && Candidate(sv.world, raw).Some?
    requires PartsFault(Candidate(sv.world, raw).value).Some? && m.log.reasons == []
    ensures SyntaxCode(sv.world, raw).Some?
    ensures AfterSyntax(sv, m) == Objected(m, SyntaxLeaves(sv.world, raw), SyntaxCode(sv.world, raw).value)
  {
    PartsAreChecked(sv, raw, m);
    FaultHasCode(sv.world, raw);
  }

  lemma SyntaxRejects(sv: Services, raw: Text, m: Letter)
    requires m.form == Normalize(sv.world, raw) && !Accepted(sv.world, raw) && m.original == raw
    requires m.log.reasons == [] && (m.form.normalized == [] ==> Trim(raw) == [])
    ensures SyntaxCode(sv.world, raw).Some?
    ensures AfterSyntax(sv, m) == Objected(m, SyntaxLeaves(sv.world, raw), SyntaxCode(sv.world, raw).value)
  {
    if Candidate(sv.world, raw).None? {
      UnparsedIsRejected(sv, raw, m);
    } else {
      PartsFaultIff(Candidate(sv.world, raw).value);
      FaultyIsRejected(sv, raw, m);
    }
  }

  lemma SyntaxFacts(sv: Services, raw: Text, m: Letter)
    requires m == Passed(New(raw).(form := Normalize(sv.world, raw)), NormalizeStage,
                         Normalize(sv.world, raw).normalized != [])
    requires Normalize(sv.world, raw).normalized == [] ==> Trim(raw) == []
    ensures var pass := AfterSyntax(sv, m);
      && (pass.ok <==> Accepted(sv.world, raw))
      && (pass.ok ==> pass.m == m.(form := AcceptedForm(sv.world, raw)))
      && (!pass.ok ==> SyntaxCode(sv.world, raw).Some?)
      && (!pass.ok ==> pass.m == Given(m.(form := m.form.(normalized := SyntaxLeaves(sv.world, raw))),
                                       SyntaxCode(sv.world, raw).value))
  {
    if Accepted(sv.world, raw) {
      SyntaxAccepts(sv, raw, m);
    } else {
      SyntaxRejects(sv, raw, m);
    }
  }

  lemma TldFacts(sv: Services, m: Letter)
    requires m.form.domain != [] && m.status.None? && InvalidTld !in m.log.reasons
    ensures Stops(sv, TldStage, m) <==> !KnownTld(sv, m.form.domain)
    ensures Marked(sv, TldStage, m) ==
      if KnownTld(sv, m.form.domain) then Passed(m, TldStage, true)
      else Halted(m, m.form, TldStage, InvalidTld)
  {
  }

  // The three stages that only annotate.
  function Annotated(sv: Services, m: Letter): Letter {
    Marked(sv, RoleStage, Marked(sv, DisposableStage, Marked(sv, TypoStage, m)))
  }

  lemma TypoFacts(sv: Services, m: Letter)
    requires m.form.domain != [] && m.marks.suggested == [] && TypoFound !in m.log.reasons
    ensures Marked(sv, TypoStage, m) ==
      if sv.suggest(m.form.domain) == [] then Passed(m, TypoStage, true)
      else Passed(Given(m.(marks := m.marks.(suggested := m.form.local + Spelled("@") + sv.suggest(m.form.domain))),
                        TypoFound), TypoStage, true)
  {
    Separators();
  }

  lemma DisposableFacts(sv: Services, m: Letter)
    requires m.form.domain != [] && !m.marks.isDisposable && DisposableDomain !in m.log.reasons
    ensures Marked(sv, DisposableStage, m) ==
      if !sv.disposable(m.form.domain) then Passed(m, DisposableStage, true)
      else Passed(Given(m.(marks := m.marks.(isDisposable := true)), DisposableDomain), DisposableStage, true)
  {
  }

  lemma RoleFacts(sv: Services, m: Letter)
    requires m.form.local != [] && !m.marks.isRole && RoleAccount !in m.log.reasons
    ensures Marked(sv, RoleStage, m) ==
      if !sv.role(m.form.local) then Passed(m, RoleStage, true)
      else Passed(Given(m.(marks := m.marks.(isRole := true), tag := m.tag.(classification := Role)), RoleAccount),
                  RoleStage, true)
  {
  }

  // After all three.
  function WithMarks(sv: Services, m: Letter): Letter {
    m.(marks := MarksFor(sv, m.form), tag := Tag(m.tag.isFree, if sv.role(m.form.local) then Role else Unclassified),
       log := Log(m.log.reasons + ListReasons(sv, m.form),
                  m.log.stages[TypoStage := true][DisposableStage := true][RoleStage := true]))
  }

  lemma MiddleStages(sv: Services, m: Letter)
    requires m.form.domain != [] && m.form.local != [] && m.marks == Marks([], false, false)
    requires m.tag == Tag(false, Unclassified) && m.log.reasons == []
    ensures Annotated(sv, m) == WithMarks(sv, m)
  {
    var m1 := Marked(sv, TypoStage, m);
    var m2 := Marked(sv, DisposableStage, m1);
    TypoFacts(sv, m);
    DisposableFacts(sv, m1);
    RoleFacts(sv, m2);
  }

  lemma MxFacts(sv: Services, m: Letter)
    requires LookupsAreSound(sv) && m.form.domain != [] && m.status.None? && m.dns == Dns(false, false) && !m.tag.isFree
    requires m.failedAt.None?
    requires forall code :: code in DnsReasons(sv.lookup(m.form.domain)) ==> code !in m.log.reasons
    ensures var t, mail := Marked(sv, MxStage, m), TakesMail(sv.lookup(m.form.domain));
      && t.original == m.original && t.form == m.form && t.marks == m.marks && t.score == m.score
      && t.dns == Dns(mail == Yes(true), mail == Yes(false))
      && t.tag == (if mail.Yes? then Tagged(sv, m.tag, m.form.domain) else m.tag)
      && t.status == (match mail case No => Some(Invalid) case Unsure => Some(Risky) case Yes(_) => None)
      && t.failedAt == (if mail.No? then Some(MxStage) else None)
      && t.log == Log(m.log.reasons + DnsReasons(sv.lookup(m.form.domain)), m.log.stages[MxStage := !mail.No?])
  {
    var found := sv.lookup(m.form.domain);
    assert found.Found? ==> Resolver.WellFormed(found.res);
  }

  // ---------- the pipeline makes that e-mail ----------

  // After Normalize and Syntax.
  function Front(sv: Services, raw: Text): Letter {
    Marked(sv, SyntaxStage, Marked(sv, NormalizeStage, New(raw)))
  }

  lemma FrontStages(sv: Services, raw: Text)
    ensures var w, n := sv.world, Normalize(sv.world, raw); var m1 := Marked(sv, NormalizeStage, New(raw));
      && m1 == Passed(New(raw).(form := n), NormalizeStage, n.normalized != [])
      && (Stops(sv, SyntaxStage, m1) <==> !Accepted(w, raw))
      && (Accepted(w, raw) ==> Front(sv, raw) == Passed(m1.(form := AcceptedForm(w, raw)), SyntaxStage, true))
      && (!Accepted(w, raw) ==> SyntaxCode(w, raw).Some?)
      && (!Accepted(w, raw) ==> Front(sv, raw) == Halted(m1, n.(normalized := SyntaxLeaves(w, raw)), SyntaxStage,
                                                         SyntaxCode(w, raw).value))
  {
    var m1 := Marked(sv, NormalizeStage, New(raw));
    NormalizeFacts(sv, raw);
    SyntaxFacts(sv, raw, m1);
  }

  lemma RunStep(sv: Services, sts: seq<StageName>, i: nat, st: StageName, m: Letter, goal: Course)
    requires i < |sts| && sts[i] == st && OnTheWay(sv, sts, i, m, goal)
    ensures if Stops(sv, st, m) then goal == Course(Marked(sv, st, m), i + 1)
            else OnTheWay(sv, sts, i + 1, Marked(sv, st, m), goal)
  {
  }

  lemma NeverStops(sv: Services, m: Letter)
    ensures !Stops(sv, NormalizeStage, m) && !Stops(sv, TypoStage, m) && !Stops(sv, DisposableStage, m)
    ensures !Stops(sv, RoleStage, m)
  {
  }

  // A stage that only annotates.
  lemma PassStep(sv: Services, sts: seq<StageName>, i: nat, st: StageName, m: Letter, goal: Course)
    requires i < |sts| && sts[i] == st && st in {NormalizeStage, TypoStage, DisposableStage, RoleStage}
    requires OnTheWay(sv, sts, i, m, goal)
    ensures OnTheWay(sv, sts, i + 1, Marked(sv, st, m), goal)
  {
    NeverStops(sv, m);
    RunStep(sv, sts, i, st, m, goal);
  }

  lemma LastStep(sv: Services, sts: seq<StageName>, i: nat, st: StageName, m: Letter, goal: Course)
    requires i + 1 == |sts| && sts[i] == st && OnTheWay(sv, sts, i, m, goal)
    ensures goal == Course(Marked(sv, st, m), i + 1)
  {
    RunStep(sv, sts, i, st, m, goal);
  }

  // The last four stages, none but the last of which can stop.
  lemma BackStages(sv: Services, m: Letter, goal: Course)
    requires OnTheWay(sv, STAGES, 3, m, goal)
    ensures goal == Course(Marked(sv, MxStage, Annotated(sv, m)), 7)
  {
    var m1 := Marked(sv, TypoStage, m);
    var m2 := Marked(sv, DisposableStage, m1);
    PassStep(sv, STAGES, 3, TypoStage, m, goal);
    PassStep(sv, STAGES, 4, DisposableStage, m1, goal);
    PassStep(sv, STAGES, 5, RoleStage, m2, goal);
    LastStep(sv, STAGES, 6, MxStage, Marked(sv, RoleStage, m2), goal);
  }

  lemma FromTld(sv: Services, m: Letter, goal: Course)
    requires OnTheWay(sv, STAGES, 2, m, goal)
    ensures var m3 := Marked(sv, TldStage, m);
      goal == if Stops(sv, TldStage, m) then Course(m3, 3) else Course(Marked(sv, MxStage, Annotated(sv, m3)), 7)
  {
    RunStep(sv, STAGES, 2, TldStage, m, goal);
    if !Stops(sv, TldStage, m) { BackStages(sv, Marked(sv, TldStage, m), goal); }
  }

  lemma FromSyntax(sv: Services, m: Letter, goal: Course)
    requires OnTheWay(sv, STAGES, 1, m, goal)
    ensures var m2 := Marked(sv, SyntaxStage, m); var m3 := Marked(sv, TldStage, m2);
      goal == if Stops(sv, SyntaxStage, m) then Course(m2, 2)
              else if Stops(sv, TldStage, m2) then Course(m3, 3)
              else Course(Marked(sv, MxStage, Annotated(sv, m3)), 7)
  {
    RunStep(sv, STAGES, 1, SyntaxStage, m, goal);
    if !Stops(sv, SyntaxStage, m) { FromTld(sv, Marked(sv, SyntaxStage, m), goal); }
  }

  lemma RunUnrolled(sv: Services, m: Letter, goal: Course)
    requires OnTheWay(sv, STAGES, 0, m, goal)
    ensures var m1 := Marked(sv, NormalizeStage, m); var m2 := Marked(sv, SyntaxStage, m1);
      var m3 := Marked(sv, TldStage, m2);
      goal == if Stops(sv, SyntaxStage, m1) then Course(m2, 2)
              else if Stops(sv, TldStage, m2) then Course(m3, 3)
              else Course(Marked(sv, MxStage, Annotated(sv, m3)), 7)
  {
    PassStep(sv, STAGES, 0, NormalizeStage, m, goal);
    FromSyntax(sv, Marked(sv, NormalizeStage, m), goal);
  }

  lemma PipelineUnrolled(sv: Services, m: Letter)
    ensures var m1 := Marked(sv, NormalizeStage, m); var m2 := Marked(sv, SyntaxStage, m1);
      var m3 := Marked(sv, TldStage, m2);
      && Pipeline(sv, STAGES, m) == (if Stops(sv, SyntaxStage, m1) then m2
                                     else if Stops(sv, TldStage, m2) then m3
                                     else Marked(sv, MxStage, Annotated(sv, m3)))
      && Reached(sv, STAGES, m) == if Stops(sv, SyntaxStage, m1) then 2 else if Stops(sv, TldStage, m2) then 3 else 7
  {
    RunUnrolled(sv, m, Run(sv, STAGES, 0, m));
  }

  /** Two stages run for an e-mail the syntax stage stops, three for one the TLD stage stops, and
      all seven for any other. */
  lemma StagesRunAre(sv: Services, raw: Text)
    ensures Reached(sv, STAGES, New(raw)) == StagesRun(sv, raw)
  {
    var m2 := Front(sv, raw);
    PipelineUnrolled(sv, New(raw));
    FrontStages(sv, raw);
    if Accepted(sv.world, raw) {
      AcceptedIsWhole(sv.world, raw);
      TldFacts(sv, m2);
    }
  }

  lemma PointsAre(c: Scoring, m: Letter)
    ensures Points(c, m) ==
      Total((if m.form.normalized != [] then c.syntax else 0)
            + (if m.dns.hasMX then c.mx else if m.dns.hasA then c.aFallback else 0) + c.tld
            + (if m.marks.isDisposable then c.disposable else 0) + (if m.marks.isRole then c.role else 0)
            + (if m.marks.suggested != [] then c.typo else 0))
  {
  }

  lemma EvidenceIs(sv: Services, c: Scoring, f: Form, viaMX: bool)
    ensures Evidence(sv, c, f, viaMX) ==
            Total(c.syntax + c.tld + (if viaMX then c.mx else c.aFallback) + MarkPoints(sv, c, f))
  {
  }

  lemma ScoredIs(c: Scoring, m: Letter)
    ensures Scored(c, m) == m.(score := Points(c, m), status := Scored(c, m).status)
    ensures m.status.Some? ==> Scored(c, m).status == m.status
    ensures 0 <= Points(c, m) <= 100
  {
  }

  lemma ReasonsApart(sv: Services, f: Form, l: Resolver.Lookup)
    ensures forall code :: code in DnsReasons(l) ==> code !in ListReasons(sv, f)
  {
  }

  lemma LastTag(sv: Services, f: Form, takesMail: bool)
    ensures var tag := Tag(false, if sv.role(f.local) then Role else Unclassified);
      TagFor(sv, f, takesMail) == if takesMail then Tagged(sv, tag, f.domain) else tag
  {
  }

  lemma LastScore(sv: Services, c: Scoring, f: Form, t: Letter)
    requires t.form == f && f.normalized != [] && t.marks == MarksFor(sv, f)
    requires var mail := TakesMail(sv.lookup(f.domain)); t.dns == Dns(mail == Yes(true), mail == Yes(false))
    ensures Points(c, t) ==
      Total(c.syntax + c.tld + (match TakesMail(sv.lookup(f.domain)) case Yes(true) => c.mx
                                case Yes(false) => c.aFallback case _ => 0) + MarkPoints(sv, c, f))
  {
    PointsAre(c, t);
  }

  lemma LastLog(m: Letter, f: Form, raw: Text, mx: bool)
    requires m == Passed(Passed(Passed(New(raw).(form := f), NormalizeStage, true), SyntaxStage, true), TldStage, true)
    ensures m.log.stages[TypoStage := true][DisposableStage := true][RoleStage := true][MxStage := mx] ==
      map[NormalizeStage := true, SyntaxStage := true, TldStage := true, TypoStage := true,
          DisposableStage := true, RoleStage := true, MxStage := mx]
  {
  }

  // All but the score and the status of an e-mail that passed the first three stages.
  lemma LastFields(sv: Services, c: Scoring, raw: Text, f: Form, m: Letter)
    requires LookupsAreSound(sv) && f.normalized != [] && f.domain != [] && f.local != []
    requires m == Passed(Passed(Passed(New(raw).(form := f), NormalizeStage, true), SyntaxStage, true), TldStage, true)
    ensures var t, mail := Marked(sv, MxStage, WithMarks(sv, m)), TakesMail(sv.lookup(f.domain));
      && t == LookedUp(sv, c, raw, f).(score := t.score, status := t.status)
      && t.status == (match mail case No => Some(Invalid) case Unsure => Some(Risky) case Yes(_) => None)
  {
    var mail := TakesMail(sv.lookup(f.domain));
    ReasonsApart(sv, f, sv.lookup(f.domain));
    MxFacts(sv, WithMarks(sv, m));
    LastTag(sv, f, mail.Yes?);
    LastLog(m, f, raw, !mail.No?);
  }

  // The end of the pipeline and the score.
  lemma LastStage(sv: Services, c: Scoring, raw: Text, f: Form, m: Letter)
    requires LookupsAreSound(sv) && f.normalized != [] && f.domain != [] && f.local != []
    requires m == Passed(Passed(Passed(New(raw).(form := f), NormalizeStage, true), SyntaxStage, true), TldStage, true)
    ensures Scored(c, Marked(sv, MxStage, WithMarks(sv, m))) == LookedUp(sv, c, raw, f)
  {
    var t := Marked(sv, MxStage, WithMarks(sv, m));
    LastFields(sv, c, raw, f, m);
    LastScore(sv, c, f, t);
    LastStatus(sv, c, f, t);
    ScoredIs(c, t);
  }

  lemma LastStatus(sv: Services, c: Scoring, f: Form, t: Letter)
    requires t.form == f && f.normalized != [] && t.marks == MarksFor(sv, f)
    requires var mail := TakesMail(sv.lookup(f.domain));
      && t.dns == Dns(mail == Yes(true), mail == Yes(false))
      && t.status == (match mail case No => Some(Invalid) case Unsure => Some(Risky) case Yes(_) => None)
    ensures Scored(c, t).status == Some(FormVerdict(sv, c, f))
  {
    var mail := TakesMail(sv.lookup(f.domain));
    if mail.Yes? {
      PointsAre(c, t);
      EvidenceIs(sv, c, f, mail.viaMX);
    }
  }

  lemma StoppedIs(c: Scoring, m: Letter, raw: Text, f: Form, at: StageName, code: Code, stages: map<StageName, bool>)
    requires m == New(raw).(form := f, failedAt := Some(at), status := Some(Invalid), log := Log([code], stages))
    ensures Scored(c, m) == Stopped(c, raw, f, at, code, stages)
  {
    ScoredIs(c, m);
    PointsAre(c, m);
  }

  /** Seven mutating stages with short-circuit and a score make exactly that e-mail, field by
      field. */
  lemma ValidatedIs(sv: Services, c: Scoring, raw: Text)
    requires LookupsAreSound(sv)
    ensures Validated(sv, c, raw) == Expected(sv, c, raw)
  {
    var w, n := sv.world, Normalize(sv.world, raw);
    var m2 := Front(sv, raw);
    PipelineUnrolled(sv, New(raw));
    FrontStages(sv, raw);
    AcceptedHasNoCode(w, raw);
    if Accepted(w, raw) {
      AcceptedIsWhole(w, raw);
      AcceptedGoesOn(sv, c, raw, m2);
    } else {
      StoppedIs(c, m2, raw, n.(normalized := SyntaxLeaves(w, raw)), SyntaxStage, SyntaxCode(w, raw).value,
                map[NormalizeStage := n.normalized != [], SyntaxStage := false]);
    }
  }

  lemma AcceptedGoesOn(sv: Services, c: Scoring, raw: Text, m2: Letter)
    requires LookupsAreSound(sv) && Accepted(sv.world, raw)
    requires var f := AcceptedForm(sv.world, raw);
      && f.normalized != [] && f.local != [] && f.domain != []
      && m2 == Passed(Passed(New(raw).(form := f), NormalizeStage, true), SyntaxStage, true)
    ensures var f, m3 := AcceptedForm(sv.world, raw), Marked(sv, TldStage, m2);
      if Stops(sv, TldStage, m2)
      then !KnownTld(sv, f.domain) && Scored(c, m3) == Stopped(c, raw, f, TldStage, InvalidTld,
             map[NormalizeStage := true, SyntaxStage := true, TldStage := false])
      else KnownTld(sv, f.domain) && Scored(c, Marked(sv, MxStage, Annotated(sv, m3))) == LookedUp(sv, c, raw, f)
  {
    var f, m3 := AcceptedForm(sv.world, raw), Marked(sv, TldStage, m2);
    TldFacts(sv, m2);
    if KnownTld(sv, f.domain) {
      MiddleStages(sv, m3);
      LastStage(sv, c, raw, f, m3);
    } else {
      StoppedIs(c, m3, raw, f, TldStage, InvalidTld,
                map[NormalizeStage := true, SyntaxStage := true, TldStage := false]);
    }
  }

  /** The status, where the pipeline stopped, and the text it leaves. */
  lemma PipelineDecides(sv: Services, c: Scoring, raw: Text)
    requires LookupsAreSound(sv)
    ensures var t := Validated(sv, c, raw);
      && t.status == Some(Verdict(sv, c, raw)) && t.failedAt == StopsAt(sv, raw) && 0 <= t.score <= 100
      && t.original == raw && t.form.normalized == FinalText(sv.world, raw)
  {
    ValidatedIs(sv, c, raw);
    AcceptedHasNoCode(sv.world, raw);
  }

  lemma FormVerdictFacts(sv: Services, c: Scoring, f: Form)
    ensures FormVerdict(sv, c, f) != Unknown
    ensures TakesMail(sv.lookup(f.domain)).No? ==> FormVerdict(sv, c, f) == Invalid
  {
  }

  lemma VerdictFacts(sv: Services, c: Scoring, raw: Text)
    ensures StopsAt(sv, raw).Some? ==> Verdict(sv, c, raw) == Invalid
    ensures Verdict(sv, c, raw) != Unknown
  {
    if Accepted(sv.world, raw) { FormVerdictFacts(sv, c, AcceptedForm(sv.world, raw)); }
  }

  /** An e-mail the pipeline stopped at is invalid, and the status is never left open nor
      unknown. */
  lemma StoppedMeansInvalid(sv: Services, c: Scoring, raw: Text)
    requires LookupsAreSound(sv)
    ensures var m := Validated(sv, c, raw);
      && (m.failedAt.Some? ==> m.status == Some(Invalid))
      && m.status.Some? && m.status != Some(Unknown)
  {
    PipelineDecides(sv, c, raw);
    VerdictFacts(sv, c, raw);
  }

  /** With the shipped weights nothing is ever valid, and every possible outcome is: invalid if
      the pipeline stopped, risky if DNS failed, disposable if listed, and otherwise risky,
      unless the domain has only an A record and the address is both a role account and a
      suspected typo, which makes it invalid. */
  lemma DefaultOutcomes(sv: Services, raw: Text)
    requires LookupsAreSound(sv)
    ensures var status := Validated(sv, DEFAULTS, raw).status;
      && status != Some(Valid) && Validated(sv, DEFAULTS, raw).score <= 75
      && (StopsAt(sv, raw).Some? ==> status == Some(Invalid))
      && (StopsAt(sv, raw).None? ==>
            var f := AcceptedForm(sv.world, raw);
            match TakesMail(sv.lookup(f.domain))
            case Unsure => status == Some(Risky)
            case Yes(viaMX) =>
              status == if sv.disposable(f.domain) then Some(Disposable)
                        else if !viaMX && sv.role(f.local) && sv.suggest(f.domain) != [] then Some(Invalid)
                        else Some(Risky)
            case No => false)
  {
    PipelineDecides(sv, DEFAULTS, raw);
    var m := Pipeline(sv, STAGES, New(raw));
    assert Points(DEFAULTS, m) <= 75;
  }

  /** And the score: 40 for a well-formed address, 35 more for MX and 15 for an A record only, less
      60, 15 and 10 for a disposable domain, a role account and a suspected typo, within 0..100. */
  lemma DefaultScores(sv: Services, raw: Text)
    requires LookupsAreSound(sv)
    ensures var score := Validated(sv, DEFAULTS, raw).score;
      match StopsAt(sv, raw)
      case Some(SyntaxStage) => score == if SyntaxLeaves(sv.world, raw) != [] then 40 else 10
      case Some(TldStage) => score == 40
      case _ =>
        var f := AcceptedForm(sv.world, raw);
        var points := 40
          + (match TakesMail(sv.lookup(f.domain)) case Yes(viaMX) => if viaMX then 35 else 15 case _ => 0)
          - (if sv.disposable(f.domain) then 60 else 0) - (if sv.role(f.local) then 15 else 0)
          - (if sv.suggest(f.domain) != [] then 10 else 0);
        score == if points < 0 then 0 else if points > 100 then 100 else points
  {
    ValidatedIs(sv, DEFAULTS, raw);
    AcceptedHasNoCode(sv.world, raw);
    if Accepted(sv.world, raw) { AcceptedIsWhole(sv.world, raw); }
  }

  // The text after the last dot decides about the TLD; no dot, no TLD.
  lemma KnownTldIff(sv: Services, before: Text, tld: Text)
    requires DOT !in tld
    ensures KnownTld(sv, before + Spelled(".") + tld) <==> tld in sv.tlds
    ensures !KnownTld(sv, tld)
  {
    Separators();
    LastIndexAt(before, tld, DOT);
    assert (before + [DOT] + tld)[|before| + 1..] == tld;
  }

  // ---------- what is stored ----------

  // email_normalized as stored: the final form, or the raw text when there is none.
  function StoredAddress(sv: Services, c: Scoring, raw: Text): Text {
    var n := Validated(sv, c, raw).form.normalized;
    if n != [] then n else raw
  }

  function StoredText(w: World, raw: Text): Text {
    if FinalText(w, raw) != [] then FinalText(w, raw) else raw
  }

  /** The stored address is a function of the raw text alone, not of DNS, lists or weights. */
  lemma StoredAddressIsOfTheText(sv: Services, c: Scoring, raw: Text)
    requires LookupsAreSound(sv)
    ensures StoredAddress(sv, c, raw) == StoredText(sv.world, raw)
  {
    PipelineDecides(sv, c, raw);
  }
}
