/** The e-mail that crosses the pipeline (internal/validation/types.go) and what each stage of
    internal/validation/stages does to it. */
module Mail {
  import opened Bytes
  import opened Addresses
  import Resolver

  datatype Status = Valid | Invalid | Risky | Unknown | Disposable

  datatype Classification = Unclassified | Personal | Role | Free | Corporate | Educational | Government

  datatype Code =
    | Empty | TooLong | InvalidSyntax | LocalTooLong | DomainTooLong | DomainNoDot | InvalidTld
    | TypoFound | DisposableDomain | RoleAccount
    | NxDomain | DnsTimeout | DnsServFail | DnsRateLimited | DnsError | NoMx

  datatype StageName = NormalizeStage | SyntaxStage | TldStage | TypoStage | DisposableStage | RoleStage | MxStage

  predicate ShortCircuit(st: StageName) { st.SyntaxStage? || st.TldStage? || st.MxStage? }

  // What the stages ask of the rest of the program.
  datatype Services = Services(
    world: World,
    tlds: set<Text>,
    suggest: Text -> Text,            // Corrector.Suggest with the stage's distance
    disposable: Text -> bool,
    role: Text -> bool,
    lookup: Text -> Resolver.Lookup,  // Resolver.LookupMX
    free: Text -> bool,
    classify: Text -> Classification)

  // What LookupMX guarantees of its answers.
  ghost predicate LookupsAreSound(sv: Services) {
    forall d :: sv.lookup(d).Found? ==>
      Resolver.WellFormed(sv.lookup(d).res) && sv.lookup(d).error == Resolver.ErrorOf(sv.lookup(d).res.status)
  }

  datatype Dns = Dns(hasMX: bool, hasA: bool)

  datatype Marks = Marks(suggested: Text, isDisposable: bool, isRole: bool)

  datatype Tag = Tag(isFree: bool, classification: Classification)

  datatype Log = Log(reasons: seq<Code>, stages: map<StageName, bool>)

  // The fields of an Email at one moment.
  datatype Letter = Letter(original: Text, form: Form, dns: Dns, marks: Marks, tag: Tag,
                           status: Option<Status>, score: int, failedAt: Option<StageName>, log: Log)

  function New(raw: Text): Letter {
    Letter(raw, Form([], [], []), Dns(false, false), Marks([], false, false), Tag(false, Unclassified),
           None, 0, None, Log([], map[]))
  }

  function WithReason(m: Letter, c: Code): Letter {
    m.(log := Log(if c in m.log.reasons then m.log.reasons else m.log.reasons + [c], m.log.stages))
  }

  // A reason is added at the end, and only once.
  lemma ReasonIsAddedOnce(m: Letter, c: Code)
    requires forall i, j :: 0 <= i < j < |m.log.reasons| ==> m.log.reasons[i] != m.log.reasons[j]
    ensures var rs := WithReason(m, c).log.reasons;
      && m.log.reasons <= rs && c in rs && |rs| <= |m.log.reasons| + 1
      && forall i, j :: 0 <= i < j < |rs| ==> rs[i] != rs[j]
    ensures WithReason(m, c) == m.(log := Log(WithReason(m, c).log.reasons, m.log.stages))
  {
  }

  // ---------- the stages ----------

  datatype Pass = Pass(m: Letter, ok: bool)

  function AfterNormalize(sv: Services, m: Letter): Pass {
    var f := Normalize(sv.world, m.original);
    if Clean(m.original) == [] then Pass(m, false)
    else if !Splits(Clean(m.original)) then Pass(m.(form := m.form.(normalized := f.normalized)), true)
    else Pass(m.(form := f), true)
  }

  function CodeOf(f: Fault): Code {
    match f
    case BadSyntax => InvalidSyntax
    case LongLocal => LocalTooLong
    case LongDomain => DomainTooLong
    case NoDot => DomainNoDot
  }

  function AfterParts(m: Letter, addr: Text): Pass {
    match PartsFault(addr)
    case Some(f) => Pass(WithReason(m, CodeOf(f)), false)
    case None => Pass(m.(form := FilledIn(m.form, addr)), true)
  }

  function AfterSyntax(sv: Services, m: Letter): Pass {
    var s := if m.form.normalized == [] then Trim(m.original) else m.form.normalized;
    if s == [] then Pass(WithReason(m, Empty), false)
    else if |s| > MAX_OVERALL then Pass(WithReason(m, TooLong), false)
    else
      match CandidateOf(sv.world, s)
      case None => Pass(WithReason(m, InvalidSyntax), false)
      case Some(addr) =>
        AfterParts(if FastPath(s) then m else m.(form := m.form.(normalized := addr)), addr)
  }

  predicate KnownTld(sv: Services, domain: Text) {
    DOT in domain && domain[LastIndex(domain, DOT) + 1..] in sv.tlds
  }

  function AfterTld(sv: Services, m: Letter): Pass {
    if m.form.domain == [] || KnownTld(sv, m.form.domain) then Pass(m, true) else Pass(WithReason(m, InvalidTld), false)
  }

  function AfterTypo(sv: Services, m: Letter): Pass {
    if m.form.domain == [] || sv.suggest(m.form.domain) == [] then Pass(m, true)
    else
      var suggested := Join(m.form.local, sv.suggest(m.form.domain));
      Pass(WithReason(m.(marks := m.marks.(suggested := suggested)), TypoFound), true)
  }

  function AfterDisposable(sv: Services, m: Letter): Pass {
    if m.form.domain == [] || !sv.disposable(m.form.domain) then Pass(m, true)
    else Pass(WithReason(m.(marks := m.marks.(isDisposable := true)), DisposableDomain), true)
  }

  function AfterRole(sv: Services, m: Letter): Pass {
    if m.form.local == [] || !sv.role(m.form.local) then Pass(m, true)
    else
      var m' := m.(marks := m.marks.(isRole := true), tag := m.tag.(classification := Role));
      Pass(WithReason(m', RoleAccount), true)
  }

  function ReasonOf(e: Resolver.DnsError): Code {
    match e
    case Timeout => DnsTimeout
    case ServFail => DnsServFail
    case RateLimited => DnsRateLimited
    case _ => DnsError
  }

  function LookupError(l: Resolver.Lookup): (e: Option<Resolver.DnsError>)
    ensures e.None? ==> l.Found?
  {
    match l case Found(_, error) => error case NoResult(failure) => Some(failure)
  }

  function Tagged(sv: Services, tag: Tag, domain: Text): Tag {
    if sv.free(domain) then Tag(true, if tag.classification.Unclassified? then Free else tag.classification)
    else tag.(classification := if tag.classification.Unclassified? then sv.classify(domain) else tag.classification)
  }

  function AfterMx(sv: Services, m: Letter): Pass {
    if m.form.domain == [] then Pass(m, false)
    else
      var found := sv.lookup(m.form.domain);
      match LookupError(found)
      case Some(NXDomain) => Pass(WithReason(m, NxDomain), false)
      case Some(e) => Pass(WithReason(m, ReasonOf(e)).(status := Some(Risky)), true)
      case None =>
        var m1 := m.(dns := Dns(found.res.hasMX, found.res.hasA));
        if !found.res.hasMX && !found.res.hasA then Pass(WithReason(m1, NoMx), false)
        else Pass(m1.(tag := Tagged(sv, m.tag, m.form.domain)), true)
  }

  function AfterStage(sv: Services, st: StageName, m: Letter): Pass {
    match st
    case NormalizeStage => AfterNormalize(sv, m)
    case SyntaxStage => AfterSyntax(sv, m)
    case TldStage => AfterTld(sv, m)
    case TypoStage => AfterTypo(sv, m)
    case DisposableStage => AfterDisposable(sv, m)
    case RoleStage => AfterRole(sv, m)
    case MxStage => AfterMx(sv, m)
  }

  // The checks of checkParts, in order.
  method FirstFault(addr: Text) returns (fault: Option<Fault>)
    ensures fault == PartsFault(addr)
  {
    var at := LastIndex(addr, AT);
    if at <= 0 || at == |addr| - 1 {
      return Some(BadSyntax);
    }
    var local, domain := addr[..at], addr[at + 1..];
    if |local| > MAX_LOCAL {
      return Some(LongLocal);
    }
    if |domain| > MAX_DOMAIN {
      return Some(LongDomain);
    }
    if DOT !in domain {
      return Some(NoDot);
    }
    if !DotsOk(local) {
      return Some(BadSyntax);
    }
    return None;
  }

  // Local part and domain of a clean address split at its last '@': IDNA, then the Gmail rules.
  method SplitForm(w: World, raw: Text, at: nat) returns (local: Text, domain: Text)
    requires Splits(raw) && at == LastIndex(raw, AT)
    ensures Form(Join(local, domain), local, domain) == FormOf(LocalOf(raw), AsciiDomain(w, DomainOf(raw)))
  {
    local, domain := raw[..at], raw[at + 1..];
    var ascii := w.toASCII(domain);
    if ascii.Some? {
      domain := ascii.value;
    }
    if domain == GMAIL || domain == GOOGLEMAIL {
      var plus := FirstIndex(local, PLUS);
      if plus >= 0 {
        local := local[..plus];
      }
      local := Remove(local, DOT);
      domain := GMAIL;
    }
  }

  // ---------- the object ----------

  class Email {
    const original: Text
    var normalized: Text
    var localPart: Text
    var domain: Text
    var hasMX: bool
    var hasA: bool
    var isDisposable: bool
    var isRole: bool
    var isFree: bool
    var suggested: Text
    var status: Option<Status>
    var score: int
    var classification: Classification
    var reasons: seq<Code>
    var failedAt: Option<StageName>
    var stages: map<StageName, bool>

    function View(): Letter
      reads this
    {
      Letter(original, Form(normalized, localPart, domain), Dns(hasMX, hasA), Marks(suggested, isDisposable, isRole),
             Tag(isFree, classification), status, score, failedAt, Log(reasons, stages))
    }

    constructor (raw: Text)
      ensures View() == New(raw)
    {
      original := raw;
      normalized, localPart, domain, suggested := [], [], [], [];
      hasMX, hasA, isDisposable, isRole, isFree := false, false, false, false, false;
      status, score, classification, reasons := None, 0, Unclassified, [];
      failedAt, stages := None, map[];
    }

    method AddReason(c: Code)
      modifies this`reasons
      ensures View() == WithReason(old(View()), c)
    {
      for i := 0 to |reasons|
        invariant c !in reasons[..i] && reasons == old(reasons)
      {
        if reasons[i] == c {
          return;
        }
      }
      reasons := reasons + [c];
    }

    method RunNormalize(sv: Services) returns (ok: bool)
      modifies this
      ensures Pass(View(), ok) == AfterNormalize(sv, old(View()))
    {
      var raw := Trim(original);
      if raw == [] {
        return false;
      }
      raw := Lower(raw);
      var at := LastIndex(raw, AT);
      if at <= 0 || at == |raw| - 1 {
        normalized := raw;
        return true;
      }
      var local, ascii := SplitForm(sv.world, raw, at);
      localPart, domain := local, ascii;
      normalized := Join(localPart, domain);
      return true;
    }

    method CheckParts(addr: Text) returns (ok: bool)
      modifies this`reasons, this`localPart, this`domain
      ensures Pass(View(), ok) == AfterParts(old(View()), addr)
    {
      var fault := FirstFault(addr);
      if fault.Some? {
        AddReason(CodeOf(fault.value));
        return false;
      }
      var at := LastIndex(addr, AT);
      if localPart == [] {
        localPart := addr[..at];
      }
      if domain == [] {
        domain := addr[at + 1..];
      }
      return true;
    }

    method RunSyntax(sv: Services) returns (ok: bool)
      modifies this`reasons, this`localPart, this`domain, this`normalized
      ensures Pass(View(), ok) == AfterSyntax(sv, old(View()))
    {
      var s := normalized;
      if s == [] {
        s := Trim(original);
      }
      if |s| == 0 {
        AddReason(Empty);
        return false;
      }
      if |s| > MAX_OVERALL {
        AddReason(TooLong);
        return false;
      }
      var addr := CandidateOf(sv.world, s);
      if addr.None? {
        AddReason(InvalidSyntax);
        return false;
      }
      if !FastPath(s) {
        normalized := addr.value;
      }
      ok := CheckParts(addr.value);
    }

    method RunTld(sv: Services) returns (ok: bool)
      modifies this`reasons
      ensures Pass(View(), ok) == AfterTld(sv, old(View()))
    {
      if domain == [] {
        return true;
      }
      var dot := LastIndex(domain, DOT);
      if dot < 0 || domain[dot + 1..] !in sv.tlds {
        AddReason(InvalidTld);
        return false;
      }
      return true;
    }

    // typo, disposable and role: they mark, they never fail.
    method RunTypo(sv: Services) returns (ok: bool)
      modifies this`reasons, this`suggested
      ensures Pass(View(), ok) == AfterTypo(sv, old(View()))
    {
      if domain != [] {
        var suggestion := sv.suggest(domain);
        if suggestion != [] {
          suggested := Join(localPart, suggestion);
          AddReason(TypoFound);
        }
      }
      return true;
    }

    method RunDisposable(sv: Services) returns (ok: bool)
      modifies this`reasons, this`isDisposable
      ensures Pass(View(), ok) == AfterDisposable(sv, old(View()))
    {
      if domain != [] && sv.disposable(domain) {
        isDisposable := true;
        AddReason(DisposableDomain);
      }
      return true;
    }

    method RunRole(sv: Services) returns (ok: bool)
      modifies this`reasons, this`isRole, this`classification
      ensures Pass(View(), ok) == AfterRole(sv, old(View()))
    {
      if localPart != [] && sv.role(localPart) {
        isRole := true;
        classification := Role;
        AddReason(RoleAccount);
      }
      return true;
    }

    method RunMx(sv: Services) returns (ok: bool)
      modifies this`reasons, this`status, this`hasMX, this`hasA, this`isFree, this`classification
      ensures Pass(View(), ok) == AfterMx(sv, old(View()))
    {
      if domain == [] {
        return false;
      }
      var found := sv.lookup(domain);
      var error := LookupError(found);
      match error {
        case Some(NXDomain) =>
          AddReason(NxDomain);
          return false;
        case Some(e) =>
          AddReason(ReasonOf(e));
          status := Some(Risky);
          return true;
        case None =>
      }
      hasMX, hasA := found.res.hasMX, found.res.hasA;
      if !hasMX && !hasA {
        AddReason(NoMx);
        return false;
      }
      Classify(sv);
      return true;
    }

    // Free provider or not, unless the address is already classified.
    method Classify(sv: Services)
      modifies this`isFree, this`classification
      ensures Tag(isFree, classification) == Tagged(sv, old(Tag(isFree, classification)), domain)
    {
      if sv.free(domain) {
        isFree := true;
        if classification.Unclassified? {
          classification := Free;
        }
      } else if classification.Unclassified? {
        classification := sv.classify(domain);
      }
    }

    method RunStage(sv: Services, st: StageName) returns (ok: bool)
      modifies this
      ensures Pass(View(), ok) == AfterStage(sv, st, old(View()))
    {
      match st {
        case NormalizeStage => ok := RunNormalize(sv);
        case SyntaxStage => ok := RunSyntax(sv);
        case TldStage => ok := RunTld(sv);
        case TypoStage => ok := RunTypo(sv);
        case DisposableStage => ok := RunDisposable(sv);
        case RoleStage => ok := RunRole(sv);
        case MxStage => ok := RunMx(sv);
      }
    }
  }
}
