/** The DNS client and resolver of internal/dns: Query, resolveMX with its A fallback, the
    retry loop and the cached lookup.

    The network is an arbitrary sequence of replies, one per exchange; `sent` counts them.
    A duration is a number of nanoseconds. */
module Resolver {
  import opened Bytes
  import opened StableSort
  import opened TieredCache

  // ---------- the wire ----------

  datatype NetError = NetTimeout | NetOther

  datatype Record =
    | MX(exchange: Text, preference: nat, ttl: nat)
    | A(address: Text)
    | Other

  datatype Packet =
    | Lost(error: NetError)
    | Reply(rcode: nat, truncated: bool, answers: seq<Record>)

  class Wire {
    const packets: nat -> Packet
    var sent: nat

    constructor (packets: nat -> Packet)
      ensures this.packets == packets && sent == 0
    {
      this.packets := packets;
      sent := 0;
    }

    method Exchange() returns (x: Packet)
      modifies this
      ensures x == packets(old(sent)) && sent == old(sent) + 1
    {
      x := packets(sent);
      sent := sent + 1;
    }
  }

  // ---------- Client.Query ----------

  datatype DnsError = NXDomain | ServFail | Refused | Timeout | Unclassified | RateLimited | ContextDone

  datatype QueryResult = Answers(records: seq<Record>) | Failed(error: DnsError)

  function ClassifyNetwork(e: NetError): DnsError {
    if e.NetTimeout? then Timeout else Unclassified
  }

  function ClassifyReply(x: Packet): QueryResult
    requires x.Reply?
  {
    match x.rcode
    case 0 => Answers(x.answers)
    case 3 => Failed(NXDomain)
    case 2 => Failed(ServFail)
    case 5 => Failed(Refused)
    case _ => Failed(Unclassified)
  }

  // Packets from..upTo are what one Query consumed, and r is what it made of them: UDP is
  // repeated only after a loss, TCP is tried once after retries + 1 losses or a truncation.
  ghost predicate QueryTrace(packets: nat -> Packet, from: nat, upTo: nat, retries: nat, r: QueryResult) {
    var last := upTo - 1;
    && from < upTo <= from + retries + 2
    && (forall i :: from <= i < upTo - 2 ==> packets(i).Lost?)
    && (if packets(last).Reply? then
          && r == ClassifyReply(packets(last))
          // a truncated reply is accepted from TCP only
          && (packets(last).truncated ==> upTo - from >= 2)
          && (packets(last).truncated && packets(last - 1).Lost? ==> upTo - from == retries + 2)
          && (upTo - from >= 2 && packets(last - 1).Reply? ==> packets(last - 1).truncated)
        else if upTo - from >= 2 && packets(last - 1).Lost? then
          upTo - from == retries + 2 && r == Failed(ClassifyNetwork(packets(last - 1).error))
        else
          && upTo - from >= 2 && packets(last - 1).truncated
          && r == Failed(ClassifyNetwork(packets(last).error)))
  }

  /** The packets determine how many of them a Query consumes and what it answers. */
  lemma QueryTraceIsUnique(packets: nat -> Packet, from: nat, u1: nat, u2: nat, retries: nat,
                           r1: QueryResult, r2: QueryResult)
    requires QueryTrace(packets, from, u1, retries, r1) && QueryTrace(packets, from, u2, retries, r2)
    ensures u1 == u2 && r1 == r2
  {
    // a packet that ended one trace cannot be inside the other
    var end1, end2 := packets(u1 - 1), packets(u2 - 1);
    assert u1 + 1 < u2 ==> end1.Lost?;
    assert u2 + 1 < u1 ==> end2.Lost?;
    var before1 := if u1 >= from + 2 then packets(u1 - 2) else end1;
    var before2 := if u2 >= from + 2 then packets(u2 - 2) else end2;
    assert u1 + 1 == u2 && u1 >= from + 2 ==> before1.Lost?;
    assert u2 + 1 == u1 && u2 >= from + 2 ==> before2.Lost?;
  }

  /** What a Query makes of its packets: the response code of the last one decides; if that was
      lost, it is a timeout when the loss that counts was one, the last UDP loss if UDP never
      brought a reply. */
  lemma QueryMeans(packets: nat -> Packet, from: nat, upTo: nat, retries: nat, r: QueryResult)
    requires QueryTrace(packets, from, upTo, retries, r)
    ensures var last := packets(upTo - 1);
      && (r.Answers? <==> last.Reply? && last.rcode == 0) && (r.Answers? ==> r.records == last.answers)
      && (r == Failed(NXDomain) <==> last.Reply? && last.rcode == 3)
      && (r == Failed(ServFail) <==> last.Reply? && last.rcode == 2)
      && (r == Failed(Refused) <==> last.Reply? && last.rcode == 5)
      && (r == Failed(Timeout) <==>
            (last.Lost? && if upTo - from >= 2 && packets(upTo - 2).Lost? then packets(upTo - 2).error.NetTimeout?
                           else last.error.NetTimeout?))
  {
  }

  /** And how many it takes: one if the first is an untruncated reply, two if it is a truncated
      one, and retries + 2 if the first retries + 1 are lost. */
  lemma QueryTakes(packets: nat -> Packet, from: nat, upTo: nat, retries: nat, r: QueryResult)
    requires QueryTrace(packets, from, upTo, retries, r)
    ensures upTo == from + 1 <==> packets(from).Reply? && !packets(from).truncated
    ensures packets(from).Reply? && packets(from).truncated ==> upTo == from + 2
    ensures (forall i :: from <= i <= from + retries ==> packets(i).Lost?) ==> upTo == from + retries + 2
  {
    assert upTo > from + 2 ==> packets(from).Lost?;
  }

  method Query(wire: Wire, retries: nat) returns (r: QueryResult)
    modifies wire
    ensures QueryTrace(wire.packets, old(wire.sent), wire.sent, retries, r)
    // the last packet decides, by its response code
    ensures old(wire.sent) < wire.sent
    ensures var last := wire.packets(wire.sent - 1);
      && (r.Answers? <==> last.Reply? && last.rcode == 0) && (r.Answers? ==> r.records == last.answers)
      && (r == Failed(NXDomain) <==> last.Reply? && last.rcode == 3)
      && (r == Failed(ServFail) <==> last.Reply? && last.rcode == 2)
      && (r == Failed(Refused) <==> last.Reply? && last.rcode == 5)
      && (r == Failed(Timeout) ==> last.Lost?)
    // an untruncated first reply is all it takes
    ensures wire.sent == old(wire.sent) + 1 <==>
      wire.packets(old(wire.sent)).Reply? && !wire.packets(old(wire.sent)).truncated
  {
    var response: Option<Packet> := None;
    var lastError: Option<NetError> := None;
    ghost var from := wire.sent;
    var i := 0;
    while i <= retries
      invariant 0 <= i <= retries + 1 && wire.sent == from + i
      invariant response.None? && (lastError.None? <==> i == 0)
      invariant forall k :: from <= k < wire.sent ==> wire.packets(k).Lost?
      invariant i > 0 ==> lastError == Some(wire.packets(wire.sent - 1).error)
    {
      var x := wire.Exchange();
      if x.Reply? {
        response, lastError := Some(x), None;
        break;
      }
      lastError := Some(x.error);
      i := i + 1;
    }
    if (response.Some? && response.value.truncated) || lastError.Some? {
      var x := wire.Exchange();
      if x.Reply? {
        response, lastError := Some(x), None;
      } else if lastError.None? {
        lastError := Some(x.error);
      }
    }
    if lastError.Some? {
      return Failed(ClassifyNetwork(lastError.value));
    }
    return ClassifyReply(response.value);
  }

  // ---------- resolveMX ----------

  datatype Status = Ok | NoMX | NoDomain | TimedOut | ServerFailed

  predicate Transient(s: Status) { s.TimedOut? || s.ServerFailed? }

  datatype MXResult = MXResult(domain: Text, mx: seq<MXRecord>, hasMX: bool, hasA: bool, a: seq<Text>,
                               status: Status, ttlSeconds: int)

  function TrimDot(s: Text): Text {
    if s != [] && s[|s| - 1] == DOT then s[..|s| - 1] else s
  }

  // The MX records among the answers, in the order received.
  function MXRecords(answers: seq<Record>): seq<MXRecord> {
    if answers == [] then []
    else
      var r := answers[|answers| - 1];
      MXRecords(answers[..|answers| - 1]) + (if r.MX? then [MXRecord(TrimDot(r.exchange), r.preference)] else [])
  }

  function Addresses(answers: seq<Record>): seq<Text> {
    if answers == [] then []
    else
      var r := answers[|answers| - 1];
      Addresses(answers[..|answers| - 1]) + (if r.A? then [r.address] else [])
  }

  function LeastTtl(answers: seq<Record>): (ttl: nat)
    ensures ttl <= 3600
  {
    if answers == [] then 3600
    else
      var r, rest := answers[|answers| - 1], LeastTtl(answers[..|answers| - 1]);
      if r.MX? && r.ttl < rest then r.ttl else rest
  }

  // Section 5.1 of RFC 5321: without MX records the domain itself is the mail host, preference 0.
  function ImplicitMX(domain: Text): seq<MXRecord> { [MXRecord(domain, 0)] }

  predicate WellFormed(res: MXResult) {
    && (res.status.Ok? <==> res.hasMX || res.hasA)
    && (res.hasMX || res.hasA <==> res.mx != [])
    && !(res.hasMX && res.hasA)
    && (res.hasA <==> res.a != [])
    && (res.hasA ==> res.mx == ImplicitMX(res.domain))
    && Sorted(res.mx)
  }

  // ---------- what the reading functions mean ----------

  // The name without the dot that ends a fully qualified one.
  lemma TrimDotIs(name: Text)
    ensures TrimDot(name + Spelled(".")) == name
    ensures !(Spelled(".") <= name[if name == [] then 0 else |name| - 1..]) ==> TrimDot(name) == name
  {
    Separators();
  }

  /** The MX records of a reply, in the order received: one for every MX answer and none for any
      other. */
  lemma {:induction false} MXRecordsAre(a: seq<Record>, b: seq<Record>)
    ensures MXRecords(a + b) == MXRecords(a) + MXRecords(b)
    ensures forall host: Text, p, ttl ::
      MXRecords([MX(host, p, ttl)]) ==
        [MXRecord(if host != [] && host[|host| - 1] == DOT then host[..|host| - 1] else host, p)]
    ensures forall address :: MXRecords([A(address)]) == MXRecords([Other]) == MXRecords([]) == []
    decreases |b|
  {
    assert forall r: Record ::
      MXRecords([r]) == MXRecords([]) + (if r.MX? then [MXRecord(TrimDot(r.exchange), r.preference)] else []);
    if b == [] {
      assert a + b == a;
    } else {
      assert (a + b)[..|a + b| - 1] == a + b[..|b| - 1];
      MXRecordsAre(a, b[..|b| - 1]);
    }
  }

  // And the addresses of the A answers likewise.
  lemma {:induction false} AddressesAre(a: seq<Record>, b: seq<Record>)
    ensures Addresses(a + b) == Addresses(a) + Addresses(b)
    ensures forall address :: Addresses([A(address)]) == [address]
    ensures forall host, p, ttl :: Addresses([MX(host, p, ttl)]) == Addresses([Other]) == Addresses([]) == []
    decreases |b|
  {
    assert forall r: Record :: Addresses([r]) == Addresses([]) + (if r.A? then [r.address] else []);
    if b == [] {
      assert a + b == a;
    } else {
      assert (a + b)[..|a + b| - 1] == a + b[..|b| - 1];
      AddressesAre(a, b[..|b| - 1]);
    }
  }

  /** The least lifetime of the MX answers, an hour at most. */
  lemma {:induction false} LeastTtlIs(answers: seq<Record>)
    ensures LeastTtl(answers) <= 3600 && forall r :: r in answers && r.MX? ==> LeastTtl(answers) <= r.ttl
    ensures LeastTtl(answers) == 3600 || exists r :: r in answers && r.MX? && r.ttl == LeastTtl(answers)
    decreases |answers|
  {
    if answers != [] {
      LeastTtlIs(answers[..|answers| - 1]);
      assert answers == answers[..|answers| - 1] + [answers[|answers| - 1]];
    }
  }

  lemma {:induction false} SomeMX(answers: seq<Record>)
    ensures MXRecords(answers) != [] <==> exists r :: r in answers && r.MX?
    decreases |answers|
  {
    if answers != [] {
      SomeMX(answers[..|answers| - 1]);
      assert answers == answers[..|answers| - 1] + [answers[|answers| - 1]];
    }
  }

  lemma {:induction false} SomeA(answers: seq<Record>)
    ensures Addresses(answers) != [] <==> exists r :: r in answers && r.A?
    decreases |answers|
  {
    if answers != [] {
      SomeA(answers[..|answers| - 1]);
      assert answers == answers[..|answers| - 1] + [answers[|answers| - 1]];
    }
  }

  // What one attempt concludes from the reply to the MX query and, when that has no MX
  // record, the reply to the A query.
  ghost predicate Concludes(res: MXResult, domain: Text, negSeconds: int, mxReply: QueryResult, aReply: QueryResult) {
    && res.domain == domain
    && match mxReply
       case Failed(e) =>
         && res.mx == [] && res.a == [] && !res.hasMX && !res.hasA && res.ttlSeconds == negSeconds
         && res.status == (match e case NXDomain => NoDomain case Timeout => TimedOut case _ => ServerFailed)
       case Answers(records) =>
         && res.ttlSeconds == LeastTtl(records)
         && if MXRecords(records) != [] then
              res.status == Ok && res.hasMX && !res.hasA && res.a == [] && StablySorts(MXRecords(records), res.mx)
            else
              match aReply
              case Failed(e) =>
                && res.mx == [] && res.a == [] && !res.hasMX && !res.hasA
                && res.status == (match e case Timeout => TimedOut case ServFail => ServerFailed case _ => NoMX)
              case Answers(others) =>
                && res.a == Addresses(others) && !res.hasMX
                && res.hasA == (Addresses(others) != [])
                && res.status == (if Addresses(others) != [] then Ok else NoMX)
                && res.mx == (if Addresses(others) != [] then ImplicitMX(domain) else [])
  }

  /** Whatever the two replies are, the conclusion is well formed. */
  lemma ConclusionIsWellFormed(res: MXResult, domain: Text, negSeconds: int, mxReply: QueryResult, aReply: QueryResult)
    requires Concludes(res, domain, negSeconds, mxReply, aReply)
    ensures WellFormed(res)
  {
    if mxReply.Answers? && MXRecords(mxReply.records) != [] {
      var m := MXRecords(mxReply.records);
      SortStablySorts(m);
      StableSortIsUnique(res.mx, Sort(m));
      assert |res.mx| == |m|;
    }
  }

  // Some replies about the domain let one conclude res.
  ghost predicate Drawn(domain: Text, res: MXResult) {
    exists negSeconds, mxReply, aReply :: Concludes(res, domain, negSeconds, mxReply, aReply)
  }

  lemma DrawnIsWellFormed(domain: Text, res: MXResult)
    requires Drawn(domain, res)
    ensures WellFormed(res) && res.domain == domain
  {
    var negSeconds, mxReply, aReply :| Concludes(res, domain, negSeconds, mxReply, aReply);
    ConclusionIsWellFormed(res, domain, negSeconds, mxReply, aReply);
  }

  /** The replies determine the result completely. */
  lemma ConclusionIsUnique(r1: MXResult, r2: MXResult, domain: Text, negSeconds: int,
                           mxReply: QueryResult, aReply: QueryResult)
    requires Concludes(r1, domain, negSeconds, mxReply, aReply) && Concludes(r2, domain, negSeconds, mxReply, aReply)
    ensures r1 == r2
  {
    if mxReply.Answers? && MXRecords(mxReply.records) != [] {
      StableSortIsUnique(r1.mx, r2.mx);
    }
  }

  // ---------- attempts and retries, stated on the packets ----------

  datatype Setting = Setting(packets: nat -> Packet, retries: nat, negSeconds: int)

  ghost predicate Attempted(w: Setting, domain: Text, from: nat, mid: nat, end: nat,
                            mxReply: QueryResult, aReply: QueryResult, res: MXResult) {
    && QueryTrace(w.packets, from, mid, w.retries, mxReply)
    && (if mxReply.Answers? && MXRecords(mxReply.records) == []
        then QueryTrace(w.packets, mid, end, w.retries, aReply) else end == mid)
    && Concludes(res, domain, w.negSeconds, mxReply, aReply)
  }

  // One attempt: packets from..end were consumed and res concluded from them.
  ghost predicate Attempt(w: Setting, domain: Text, from: nat, end: nat, res: MXResult) {
    exists mid: nat, mxReply, aReply :: Attempted(w, domain, from, mid, end, mxReply, aReply, res)
  }

  // An untruncated reply with this response code.
  predicate Replies(x: Packet, rcode: nat) { x.Reply? && !x.truncated && x.rcode == rcode }

  /** An attempt whose first packet is an untruncated reply.  NXDOMAIN: there is no such domain.
      Any other error: the server failed.  Success with MX records: these, lowest preference
      first.  None of them takes a second packet. */
  lemma FirstReplyDecides(w: Setting, domain: Text, from: nat, end: nat, res: MXResult)
    requires Attempt(w, domain, from, end, res)
    ensures var x := w.packets(from);
      && (Replies(x, 3) ==>
            end == from + 1 && res == MXResult(domain, [], false, false, [], NoDomain, w.negSeconds))
      && (x.Reply? && !x.truncated && x.rcode !in {0, 3} ==>
            end == from + 1 && res == MXResult(domain, [], false, false, [], ServerFailed, w.negSeconds))
      && (Replies(x, 0) && (exists r :: r in x.answers && r.MX?) ==>
            && end == from + 1 && res.status == Ok && res.hasMX && !res.hasA && res.a == []
            && StablySorts(MXRecords(x.answers), res.mx) && res.ttlSeconds == LeastTtl(x.answers)
            && forall i, j :: 0 <= i < j < |res.mx| ==> res.mx[i].priority <= res.mx[j].priority)
  {
    var mid: nat, mxReply, aReply :| Attempted(w, domain, from, mid, end, mxReply, aReply, res);
    QueryMeans(w.packets, from, mid, w.retries, mxReply);
    QueryTakes(w.packets, from, mid, w.retries, mxReply);
    if w.packets(from).Reply? { SomeMX(w.packets(from).answers); }
  }

  /** No MX records: the A query that follows decides.  Addresses: the domain itself is the mail
      host.  SERVFAIL: the server failed.  Anything else: no mail host. */
  lemma SecondReplyDecides(w: Setting, domain: Text, from: nat, end: nat, res: MXResult)
    requires Attempt(w, domain, from, end, res) && Replies(w.packets(from), 0)
    requires forall r :: r in w.packets(from).answers ==> !r.MX?
    requires w.packets(from + 1).Reply? && !w.packets(from + 1).truncated
    ensures var y := w.packets(from + 1); var found := y.rcode == 0 && exists r :: r in y.answers && r.A?;
      && end == from + 2 && res.domain == domain && !res.hasMX && res.hasA == found && res.ttlSeconds == 3600
      && res.status == (if found then Ok else if y.rcode == 2 then ServerFailed else NoMX)
      && res.mx == (if found then [MXRecord(domain, 0)] else [])
      && res.a == (if found then Addresses(y.answers) else [])
  {
    var mid: nat, mxReply, aReply :| Attempted(w, domain, from, mid, end, mxReply, aReply, res);
    QueryMeans(w.packets, from, mid, w.retries, mxReply);
    QueryTakes(w.packets, from, mid, w.retries, mxReply);
    SomeMX(w.packets(from).answers);
    QueryMeans(w.packets, mid, end, w.retries, aReply);
    QueryTakes(w.packets, mid, end, w.retries, aReply);
    SomeA(w.packets(from + 1).answers);
    LeastTtlIs(w.packets(from).answers);
  }

  /** Silence on UDP and TCP: a timeout if the last UDP loss was one, a failed server otherwise. */
  lemma SilenceDecides(w: Setting, domain: Text, from: nat, end: nat, res: MXResult)
    requires Attempt(w, domain, from, end, res)
    requires forall i :: from <= i <= from + w.retries + 1 ==> w.packets(i).Lost?
    ensures end == from + w.retries + 2
    ensures var lost := w.packets(from + w.retries).error;
      res == MXResult(domain, [], false, false, [], if lost.NetTimeout? then TimedOut else ServerFailed, w.negSeconds)
  {
    var mid: nat, mxReply, aReply :| Attempted(w, domain, from, mid, end, mxReply, aReply, res);
    QueryMeans(w.packets, from, mid, w.retries, mxReply);
    QueryTakes(w.packets, from, mid, w.retries, mxReply);
  }

  // Which packets an attempt may consume, and what it may conclude.
  type Attempts = (nat, nat, MXResult) -> bool

  ghost function AttemptsOn(w: Setting, domain: Text): Attempts {
    (from: nat, end: nat, res: MXResult) => Attempt(w, domain, from, end, res)
  }

  // Attempts n, n + 1, ... after one that gave last: the first definitive result, or the latest
  // transient one once the attempts or the context run out.
  ghost predicate Resolution(can: Attempts, endsInBackoff: nat -> bool, n: nat, last: Option<MXResult>,
                             from: nat, end: nat, res: MXResult)
    decreases MAX_RETRIES + 1 - n
  {
    if n > MAX_RETRIES || (n > 0 && endsInBackoff(n)) then last == Some(res) && end == from
    else exists found, mid: nat :: can(from, mid, found) &&
           if Transient(found.status) then Resolution(can, endsInBackoff, n + 1, Some(found), mid, end, res)
           else res == found && end == mid
  }

  ghost predicate Decisive(can: Attempts) {
    forall from: nat, e1: nat, e2: nat, r1, r2 :: can(from, e1, r1) && can(from, e2, r2) ==> e1 == e2 && r1 == r2
  }

  // Every attempt draws its answer from replies about the domain, with 1 to size packets.
  ghost predicate Sound(can: Attempts, domain: Text, size: nat) {
    forall from: nat, end: nat, res :: can(from, end, res) ==>
      Drawn(domain, res) && from < end <= from + size
  }

  lemma AttemptIsUnique(w: Setting, domain: Text, from: nat, e1: nat, e2: nat, r1: MXResult, r2: MXResult)
    requires Attempt(w, domain, from, e1, r1) && Attempt(w, domain, from, e2, r2)
    ensures e1 == e2 && r1 == r2
  {
    var m1: nat, q1, a1 :| Attempted(w, domain, from, m1, e1, q1, a1, r1);
    var m2: nat, q2, a2 :| Attempted(w, domain, from, m2, e2, q2, a2, r2);
    QueryTraceIsUnique(w.packets, from, m1, m2, w.retries, q1, q2);
    if q1.Answers? && MXRecords(q1.records) == [] {
      QueryTraceIsUnique(w.packets, m1, e1, e2, w.retries, a1, a2);
    }
    assert Concludes(r2, domain, w.negSeconds, q1, a1);
    ConclusionIsUnique(r1, r2, domain, w.negSeconds, q1, a1);
  }

  lemma AttemptBounds(w: Setting, domain: Text, from: nat, end: nat, res: MXResult)
    requires Attempt(w, domain, from, end, res)
    ensures Drawn(domain, res) && from < end <= from + 2 * (w.retries + 2)
  {
    var mid: nat, mxReply, aReply :| Attempted(w, domain, from, mid, end, mxReply, aReply, res);
    assert Concludes(res, domain, w.negSeconds, mxReply, aReply);
  }

  lemma AttemptsAreSound(w: Setting, domain: Text)
    ensures Decisive(AttemptsOn(w, domain)) && Sound(AttemptsOn(w, domain), domain, 2 * (w.retries + 2))
  {
    var can := AttemptsOn(w, domain);
    forall from: nat, e1: nat, e2: nat, r1, r2 | can(from, e1, r1) && can(from, e2, r2) ensures e1 == e2 && r1 == r2 {
      AttemptIsUnique(w, domain, from, e1, e2, r1, r2);
    }
    forall from: nat, end: nat, res | can(from, end, res)
      ensures Drawn(domain, res) && from < end <= from + 2 * (w.retries + 2)
    {
      AttemptBounds(w, domain, from, end, res);
    }
  }

  lemma {:induction false} RetriesAreDecisive(can: Attempts, endsInBackoff: nat -> bool, n: nat, last: Option<MXResult>,
                                              from: nat, e1: nat, e2: nat, r1: MXResult, r2: MXResult)
    requires Decisive(can)
    requires Resolution(can, endsInBackoff, n, last, from, e1, r1)
    requires Resolution(can, endsInBackoff, n, last, from, e2, r2)
    ensures e1 == e2 && r1 == r2
    decreases MAX_RETRIES + 1 - n
  {
    if n <= MAX_RETRIES && !(n > 0 && endsInBackoff(n)) {
      var f1, m1: nat :| can(from, m1, f1) &&
        if Transient(f1.status) then Resolution(can, endsInBackoff, n + 1, Some(f1), m1, e1, r1)
        else r1 == f1 && e1 == m1;
      var f2, m2: nat :| can(from, m2, f2) &&
        if Transient(f2.status) then Resolution(can, endsInBackoff, n + 1, Some(f2), m2, e2, r2)
        else r2 == f2 && e2 == m2;
      if Transient(f1.status) {
        RetriesAreDecisive(can, endsInBackoff, n + 1, Some(f1), m1, e1, e2, r1, r2);
      }
    }
  }

  /** The packets and the context decide how many packets a lookup consumes and what it
      answers. */
  lemma ResolutionIsUnique(w: Setting, domain: Text, endsInBackoff: nat -> bool, from: nat,
                           e1: nat, e2: nat, r1: MXResult, r2: MXResult)
    ensures && Resolution(AttemptsOn(w, domain), endsInBackoff, 0, None, from, e1, r1)
            && Resolution(AttemptsOn(w, domain), endsInBackoff, 0, None, from, e2, r2)
            ==> e1 == e2 && r1 == r2
  {
    var can := AttemptsOn(w, domain);
    AttemptsAreSound(w, domain);
    if Resolution(can, endsInBackoff, 0, None, from, e1, r1) && Resolution(can, endsInBackoff, 0, None, from, e2, r2) {
      RetriesAreDecisive(can, endsInBackoff, 0, None, from, e1, e2, r1, r2);
    }
  }

  // k attempts of at most size packets each.
  function Budget(k: nat, size: nat): nat { if k == 0 then 0 else size + Budget(k - 1, size) }

  lemma ThreeAttempts(size: nat)
    ensures Budget(3, size) == 3 * size
  {
    assert Budget(2, size) == size + Budget(1, size);
    assert Budget(1, size) == size + Budget(0, size);
  }

  // A transient attempt that leaves more to do at mid.
  ghost predicate Failing(can: Attempts, from: nat, mid: nat) {
    exists found :: can(from, mid, found) && Transient(found.status)
  }

  // The result after one transient attempt: that of the next, unless the context allows a third.
  ghost predicate AfterOne(can: Attempts, endsInBackoff: nat -> bool, from: nat, end: nat, res: MXResult) {
    if endsInBackoff(2) then can(from, end, res) else exists m: nat :: Failing(can, from, m) && can(m, end, res)
  }

  // res is the transient result of the last attempt made: the third, or the one before the
  // backoff in which the context ended; the attempts before it were transient too.
  ghost predicate GaveUp(can: Attempts, endsInBackoff: nat -> bool, from: nat, end: nat, res: MXResult) {
    && Transient(res.status)
    && if endsInBackoff(1) then can(from, end, res)
       else exists m: nat :: Failing(can, from, m) && AfterOne(can, endsInBackoff, m, end, res)
  }

  // The next attempt of a resolution, taken off and put in front.
  lemma NextAttempt(can: Attempts, endsInBackoff: nat -> bool, n: nat, last: Option<MXResult>,
                    from: nat, end: nat, res: MXResult) returns (found: MXResult, mid: nat)
    requires n <= MAX_RETRIES && !(n > 0 && endsInBackoff(n))
    requires Resolution(can, endsInBackoff, n, last, from, end, res)
    ensures can(from, mid, found)
    ensures if Transient(found.status) then Resolution(can, endsInBackoff, n + 1, Some(found), mid, end, res)
            else res == found && end == mid
  {
    found, mid :| can(from, mid, found) &&
      if Transient(found.status) then Resolution(can, endsInBackoff, n + 1, Some(found), mid, end, res)
      else res == found && end == mid;
  }

  lemma PreviousAttempt(can: Attempts, endsInBackoff: nat -> bool, n: nat, last: Option<MXResult>,
                        from: nat, found: MXResult, mid: nat, end: nat, res: MXResult)
    requires n <= MAX_RETRIES && !(n > 0 && endsInBackoff(n)) && can(from, mid, found) && Transient(found.status)
    requires Resolution(can, endsInBackoff, n + 1, Some(found), mid, end, res)
    ensures Resolution(can, endsInBackoff, n, last, from, end, res)
  {
  }

  // Nothing is tried any more.
  lemma NoAttempt(can: Attempts, endsInBackoff: nat -> bool, n: nat, last: MXResult, from: nat, end: nat, res: MXResult)
    requires n > MAX_RETRIES || (n > 0 && endsInBackoff(n))
    ensures Resolution(can, endsInBackoff, n, Some(last), from, end, res) <==> res == last && end == from
  {
  }

  lemma LastAttempt(can: Attempts, endsInBackoff: nat -> bool, n: nat, last: Option<MXResult>,
                    from: nat, end: nat, res: MXResult)
    requires n <= MAX_RETRIES && !(n > 0 && endsInBackoff(n)) && Transient(res.status)
    requires n == MAX_RETRIES || endsInBackoff(n + 1)
    ensures Resolution(can, endsInBackoff, n, last, from, end, res) <==> can(from, end, res)
  {
    if can(from, end, res) {
      NoAttempt(can, endsInBackoff, n + 1, res, end, end, res);
      PreviousAttempt(can, endsInBackoff, n, last, from, res, end, end, res);
    }
    if Resolution(can, endsInBackoff, n, last, from, end, res) {
      var found, mid := NextAttempt(can, endsInBackoff, n, last, from, end, res);
      NoAttempt(can, endsInBackoff, n + 1, found, mid, end, res);
    }
  }

  lemma SecondAttempt(can: Attempts, endsInBackoff: nat -> bool, n: nat, last: MXResult,
                      from: nat, end: nat, res: MXResult)
    requires n == 1 && !endsInBackoff(n) && Transient(res.status)
    ensures Resolution(can, endsInBackoff, n, Some(last), from, end, res) <==>
            AfterOne(can, endsInBackoff, from, end, res)
  {
    if endsInBackoff(2) {
      LastAttempt(can, endsInBackoff, n, Some(last), from, end, res);
    } else {
      SecondOfThree(can, endsInBackoff, n, last, from, end, res);
    }
  }

  lemma SecondOfThree(can: Attempts, endsInBackoff: nat -> bool, n: nat, last: MXResult,
                      from: nat, end: nat, res: MXResult)
    requires n == 1 && !endsInBackoff(1) && !endsInBackoff(2) && Transient(res.status)
    ensures Resolution(can, endsInBackoff, n, Some(last), from, end, res) <==>
            AfterOne(can, endsInBackoff, from, end, res)
  {
    if Resolution(can, endsInBackoff, n, Some(last), from, end, res) {
      var found, m := NextAttempt(can, endsInBackoff, n, Some(last), from, end, res);
      LastAttempt(can, endsInBackoff, n + 1, Some(found), m, end, res);
    }
    if AfterOne(can, endsInBackoff, from, end, res) {
      var m: nat :| Failing(can, from, m) && can(m, end, res);
      var found :| can(from, m, found) && Transient(found.status);
      LastAttempt(can, endsInBackoff, n + 1, Some(found), m, end, res);
      PreviousAttempt(can, endsInBackoff, n, Some(last), from, found, m, end, res);
    }
  }

  lemma FirstAttempt(can: Attempts, endsInBackoff: nat -> bool, n: nat, from: nat, end: nat, res: MXResult)
    requires n == 0 && Transient(res.status)
    ensures Resolution(can, endsInBackoff, n, None, from, end, res) <==> GaveUp(can, endsInBackoff, from, end, res)
  {
    if endsInBackoff(1) {
      LastAttempt(can, endsInBackoff, n, None, from, end, res);
    } else {
      if Resolution(can, endsInBackoff, n, None, from, end, res) {
        var found, m := NextAttempt(can, endsInBackoff, n, None, from, end, res);
        SecondAttempt(can, endsInBackoff, n + 1, found, m, end, res);
      }
      if GaveUp(can, endsInBackoff, from, end, res) {
        var m: nat :| Failing(can, from, m) && AfterOne(can, endsInBackoff, m, end, res);
        var found :| can(from, m, found) && Transient(found.status);
        SecondAttempt(can, endsInBackoff, n + 1, found, m, end, res);
        PreviousAttempt(can, endsInBackoff, n, None, from, found, m, end, res);
      }
    }
  }

  /** A resolution ends transiently exactly when three attempts in a row were transient, or the
      context ended in a backoff and every attempt before it was; the answer is the latest. */
  lemma TransientIff(can: Attempts, endsInBackoff: nat -> bool, from: nat, end: nat, res: MXResult)
    ensures Resolution(can, endsInBackoff, 0, None, from, end, res) && Transient(res.status)
            <==> GaveUp(can, endsInBackoff, from, end, res)
  {
    if Transient(res.status) { FirstAttempt(can, endsInBackoff, 0, from, end, res); }
  }

  lemma {:induction false} RetriesAreBounded(can: Attempts, domain: Text, size: nat, endsInBackoff: nat -> bool, n: nat,
                                             last: Option<MXResult>, from: nat, end: nat, res: MXResult)
    requires Sound(can, domain, size) && n <= MAX_RETRIES + 1
    requires Resolution(can, endsInBackoff, n, last, from, end, res)
    requires last.Some? ==> Drawn(domain, last.value)
    ensures Drawn(domain, res)
    ensures from <= end <= from + Budget(MAX_RETRIES + 1 - n, size)
    decreases MAX_RETRIES + 1 - n
  {
    if n <= MAX_RETRIES && !(n > 0 && endsInBackoff(n)) {
      var found, mid := NextAttempt(can, endsInBackoff, n, last, from, end, res);
      if Transient(found.status) {
        RetriesAreBounded(can, domain, size, endsInBackoff, n + 1, Some(found), mid, end, res);
      }
    }
  }

  /** Every lookup ends with a well-formed result about the domain after at most
      3 * 2 * (retries + 2) packets. */
  lemma ResolutionBounds(w: Setting, domain: Text, endsInBackoff: nat -> bool, from: nat, end: nat, res: MXResult)
    requires Resolution(AttemptsOn(w, domain), endsInBackoff, 0, None, from, end, res)
    ensures Drawn(domain, res) && WellFormed(res) && res.domain == domain
    ensures from <= end <= from + 3 * 2 * (w.retries + 2)
    ensures Transient(res.status) ==> GaveUp(AttemptsOn(w, domain), endsInBackoff, from, end, res)
  {
    var size := 2 * (w.retries + 2);
    AttemptsAreSound(w, domain);
    RetriesAreBounded(AttemptsOn(w, domain), domain, size, endsInBackoff, 0, None, from, end, res);
    DrawnIsWellFormed(domain, res);
    ThreeAttempts(size);
    TransientIff(AttemptsOn(w, domain), endsInBackoff, from, end, res);
  }

  // What an untruncated first reply x settles, with no second packet: NXDOMAIN that there is no
  // such domain, and MX records that there are mail hosts.
  ghost predicate Heeds(x: Packet, used: int, domain: Text, negSeconds: int, res: MXResult) {
    && (Replies(x, 3) ==> used == 1 && res == MXResult(domain, [], false, false, [], NoDomain, negSeconds))
    && (Replies(x, 0) && (exists r :: r in x.answers && r.MX?) ==>
          used == 1 && res.status == Ok && res.hasMX && StablySorts(MXRecords(x.answers), res.mx))
  }

  /** A lookup heeds its first packet. */
  lemma FirstReplyResolves(w: Setting, domain: Text, endsInBackoff: nat -> bool, from: nat, end: nat, res: MXResult)
    requires Resolution(AttemptsOn(w, domain), endsInBackoff, 0, None, from, end, res)
    ensures Heeds(w.packets(from), end - from, domain, w.negSeconds, res)
  {
    var found, mid := NextAttempt(AttemptsOn(w, domain), endsInBackoff, 0, None, from, end, res);
    FirstReplyDecides(w, domain, from, mid, found);
  }

  /** After any error but NXDOMAIN it tries again, unless the context ends in the backoff; the
      answer is then that of the next attempt, if that one is definitive. */
  lemma FirstErrorIsRetried(w: Setting, domain: Text, endsInBackoff: nat -> bool, from: nat, end: nat, res: MXResult)
    requires Resolution(AttemptsOn(w, domain), endsInBackoff, 0, None, from, end, res)
    requires w.packets(from).Reply? && !w.packets(from).truncated && w.packets(from).rcode !in {0, 3}
    ensures endsInBackoff(1) ==> end == from + 1 && res.status == ServerFailed
    ensures !endsInBackoff(1) && Replies(w.packets(from + 1), 3) ==> end == from + 2 && res.status == NoDomain
  {
    var found, mid := AttemptFails(w, domain, endsInBackoff, 0, None, from, end, res);
    if endsInBackoff(1) {
      NoAttempt(AttemptsOn(w, domain), endsInBackoff, 1, found, mid, end, res);
    } else {
      NextIsNoDomain(w, domain, endsInBackoff, found, mid, end, res);
    }
  }

  // An attempt told of any other error leaves the rest to the next one.
  lemma AttemptFails(w: Setting, domain: Text, endsInBackoff: nat -> bool, n: nat, last: Option<MXResult>,
                     from: nat, end: nat, res: MXResult)
    returns (found: MXResult, mid: nat)
    requires n <= MAX_RETRIES && !(n > 0 && endsInBackoff(n))
    requires Resolution(AttemptsOn(w, domain), endsInBackoff, n, last, from, end, res)
    requires w.packets(from).Reply? && !w.packets(from).truncated && w.packets(from).rcode !in {0, 3}
    ensures mid == from + 1 && found.status == ServerFailed
    ensures Resolution(AttemptsOn(w, domain), endsInBackoff, n + 1, Some(found), mid, end, res)
  {
    found, mid := NextAttempt(AttemptsOn(w, domain), endsInBackoff, n, last, from, end, res);
    FirstReplyDecides(w, domain, from, mid, found);
  }

  lemma NextIsNoDomain(w: Setting, domain: Text, endsInBackoff: nat -> bool, last: MXResult,
                       from: nat, end: nat, res: MXResult)
    requires Resolution(AttemptsOn(w, domain), endsInBackoff, 1, Some(last), from, end, res) && !endsInBackoff(1)
    ensures Replies(w.packets(from), 3) ==> end == from + 1 && res.status == NoDomain
  {
    var again, mid := NextAttempt(AttemptsOn(w, domain), endsInBackoff, 1, Some(last), from, end, res);
    FirstReplyDecides(w, domain, from, mid, again);
  }

  // ---------- retries and cache ----------

  const MAX_RETRIES: nat := 2
  const SECOND: int := 1_000_000_000

  // base +- 10%: `draw` is the random part, then clamped.
  method JitteredTTL(base: int, min: int, max: int, draw: int) returns (d: int)
    requires Abs(10 * draw) <= Abs(if base <= 0 then min else base)
    ensures 0 < min <= max ==> min <= d <= max
    ensures var jittered := (if base <= 0 then min else base) + draw;
      && (min <= jittered && (max <= 0 || jittered <= max) ==> d == jittered)
      && (jittered < min && (max <= 0 || min <= max) ==> d == min)
      && (0 < max && (jittered > max || min > max) ==> d == max)
    ensures 0 < base && min <= base && base <= max && 0 < min ==>
      10 * d >= 9 * base && 10 * d <= 11 * base
  {
    var b := base;
    if b <= 0 {
      b := min;
    }
    d := b + draw;
    if d < min {
      d := min;
    }
    if max > 0 && d > max {
      d := max;
    }
  }

  // What may be stored under a key: a definitive answer drawn from replies about that very domain.
  ghost predicate Cacheable(k: Key, res: MXResult) {
    Drawn(k, res) && res.status !in {TimedOut, ServerFailed}
  }

  ghost predicate CacheOk(t: Tiers<MXResult>) {
    && (forall k :: k in t.l1 ==> Cacheable(k, t.l1[k].val))
    && (forall k :: k in t.l2 ==> Cacheable(k, t.l2[k].val))
  }

  lemma CacheStaysOk(t: Tiers<MXResult>, e: Event<MXResult>)
    requires CacheOk(t) && (e.Set? ==> Cacheable(e.k, e.v))
    ensures CacheOk(Apply(t, e))
  {
  }

  lemma ReadStaysOk(t: Tiers<MXResult>, k: Key, l2Fails: bool, evicted: set<Key>)
    requires CacheOk(t)
    ensures CacheOk(Read(t, k, l2Fails, evicted))
    ensures Answer(t, k, l2Fails).Some? ==> Cacheable(k, Answer(t, k, l2Fails).value)
  {
    CacheStaysOk(t, DropL1(evicted));
    CacheStaysOk(if Refills(t, k, l2Fails) then Apply(t, DropL1(evicted)) else t, Event.Get(k, l2Fails));
  }

  /** Starting empty, a cache whose Sets are all Cacheable never holds timeout or servfail, nor
      anything that no replies about its very domain lead to, whatever else happens to it. */
  lemma {:induction false} HistoryStaysOk(start: Tiers<MXResult>, h: seq<Event<MXResult>>)
    requires Empty(start) && forall e :: e in h && e.Set? ==> Cacheable(e.k, e.v)
    ensures CacheOk(After(start, h))
    decreases |h|
  {
    if h != [] {
      HistoryStaysOk(start, h[..|h| - 1]);
      CacheStaysOk(After(start, h[..|h| - 1]), h[|h| - 1]);
    }
  }

  // The error a caller is given along with a result.
  function ErrorOf(s: Status): Option<DnsError> {
    match s
    case NoDomain => Some(NXDomain)
    case TimedOut => Some(Timeout)
    case ServerFailed => Some(ServFail)
    case Ok => None
    case NoMX => None
  }

  lemma ErrorOfIs(s: Status)
    ensures ErrorOf(s) == None <==> s in {Ok, NoMX}
    ensures ErrorOf(s) == Some(NXDomain) <==> s == NoDomain
    ensures ErrorOf(s) == Some(Timeout) <==> s == TimedOut
    ensures ErrorOf(s) == Some(ServFail) <==> s == ServerFailed
  {
  }

  datatype Lookup = Found(res: MXResult, error: Option<DnsError>) | NoResult(failure: DnsError)

  // Everything about one call that the program does not decide.
  datatype Circumstances = Circumstances(
    now: int,                   // clock at the cache
    l2ReadFails: bool, l2WriteFails: bool,
    limiterError: bool,         // DomainLimiter.Wait
    acquireError: bool,         // AdaptiveSemaphore.Acquire
    endsInBackoff: nat -> bool, // context done during the wait before attempt n
    draw: int -> int,           // the jitter for a given base
    copied: set<Key>, evicted: set<Key>)  // what a full L1 throws out for a copy, and for a new entry

  class Resolver {
    const wire: Wire
    const cache: Multi<MXResult>
    const retries: nat
    const ttlMin: int
    const ttlMax: int
    const ttlNeg: int

    ghost predicate Separate() {
      wire !in cache.Parts()
    }

    constructor (wire: Wire, cache: Multi<MXResult>, retries: nat, ttlMin: int, ttlMax: int, ttlNeg: int)
      requires wire !in cache.Parts()
      ensures this.wire == wire && this.cache == cache && this.retries == retries && Separate()
      ensures this.ttlMin == ttlMin && this.ttlMax == ttlMax && this.ttlNeg == ttlNeg
    {
      this.wire, this.cache, this.retries := wire, cache, retries;
      this.ttlMin, this.ttlMax, this.ttlNeg := ttlMin, ttlMax, ttlNeg;
    }

    ghost function World(): Setting {
      Setting(wire.packets, retries, ttlNeg / SECOND)
    }

    method ResolveMX(domain: Text) returns (res: MXResult)
      modifies wire
      ensures Attempt(World(), domain, old(wire.sent), wire.sent, res)
    {
      res := MXResult(domain, [], false, false, [], Ok, 0);
      var reply := Query(wire, retries);
      ghost var mid, aReply := wire.sent, Failed(Unclassified);
      match reply {
        case Answers(records) =>
          var ttl := 3600;
          var found: seq<MXRecord> := [];
          for i := 0 to |records|
            invariant found == MXRecords(records[..i]) && ttl == LeastTtl(records[..i])
          {
            assert records[..i + 1][..i] == records[..i];
            if records[i].MX? {
              found := found + [MXRecord(TrimDot(records[i].exchange), records[i].preference)];
              if records[i].ttl < ttl {
                ttl := records[i].ttl;
              }
            }
          }
          assert records[..|records|] == records;
          SortStablySorts(found);
          res := res.(mx := Sort(found), hasMX := |found| > 0, ttlSeconds := ttl);
          if !res.hasMX {
            res, aReply := FallbackA(res);
          }
        case Failed(NXDomain) =>
          res := res.(status := NoDomain, ttlSeconds := ttlNeg / SECOND);
        case Failed(Timeout) =>
          res := res.(status := TimedOut, ttlSeconds := ttlNeg / SECOND);
        case Failed(_) =>
          res := res.(status := ServerFailed, ttlSeconds := ttlNeg / SECOND);
      }
      assert Attempted(World(), domain, old(wire.sent), mid, wire.sent, reply, aReply, res);
    }

    method FallbackA(before: MXResult) returns (res: MXResult, ghost aReply: QueryResult)
      requires before.status == Ok && before.mx == [] && before.a == [] && !before.hasMX && !before.hasA
      modifies wire
      ensures QueryTrace(wire.packets, old(wire.sent), wire.sent, retries, aReply)
      ensures res.domain == before.domain && res.ttlSeconds == before.ttlSeconds && !res.hasMX
      ensures aReply.Answers? ==>
        var found := Addresses(aReply.records);
        && res.a == found && res.hasA == (found != []) && res.status == (if found != [] then Ok else NoMX)
        && res.mx == (if found != [] then ImplicitMX(before.domain) else [])
      ensures aReply.Failed? ==>
        && res.mx == [] && res.a == [] && !res.hasA
        && res.status == (match aReply.error case Timeout => TimedOut case ServFail => ServerFailed case _ => NoMX)
    {
      res := before;
      var reply := Query(wire, retries);
      aReply := reply;
      match reply {
        case Failed(e) =>
          if e.Timeout? {
            res := res.(status := TimedOut);
          } else if e.ServFail? {
            res := res.(status := ServerFailed);
          } else if res.status.Ok? {
            res := res.(status := NoMX);
          }
        case Answers(records) =>
          for i := 0 to |records|
            invariant res == before.(a := Addresses(records[..i]))
          {
            assert records[..i + 1][..i] == records[..i];
            if records[i].A? {
              res := res.(a := res.a + [records[i].address]);
            }
          }
          assert records[..|records|] == records;
          res := res.(hasA := |res.a| > 0);
          if res.hasA {
            res := res.(mx := [MXRecord(res.domain, 0)], hasMX := false, status := Ok);
          } else if res.status.Ok? {
            res := res.(status := NoMX);
          }
      }
    }

    // Up to three attempts; only the last one can be anything but transient.
    method ResolveMXWithRetry(domain: Text, endsInBackoff: nat -> bool) returns (res: MXResult)
      modifies wire
      ensures Resolution(AttemptsOn(World(), domain), endsInBackoff, 0, None, old(wire.sent), wire.sent, res)
    {
      var last: Option<MXResult> := None;
      var attempt := 0;
      while attempt <= MAX_RETRIES
        invariant 0 <= attempt <= MAX_RETRIES + 1 && (attempt > 0 ==> last.Some?)
        invariant forall end, r ::
                    Resolution(AttemptsOn(World(), domain), endsInBackoff, attempt, last, wire.sent, end, r)
                    ==> Resolution(AttemptsOn(World(), domain), endsInBackoff, 0, None, old(wire.sent), end, r)
      {
        if attempt > 0 {
          if endsInBackoff(attempt) {
            ghost var now := wire.sent;
            assert Resolution(AttemptsOn(World(), domain), endsInBackoff, attempt, last, now, now, last.value);
            return last.value;
          }
        }
        ghost var before, previous := wire.sent, last;
        var found := ResolveMX(domain);
        last := Some(found);
        assert AttemptsOn(World(), domain)(before, wire.sent, found);
        if !Transient(found.status) {
          assert Resolution(AttemptsOn(World(), domain), endsInBackoff, attempt, previous, before, wire.sent, found);
          return found;
        }
        forall end, r | Resolution(AttemptsOn(World(), domain), endsInBackoff, attempt + 1, last, wire.sent, end, r)
          ensures Resolution(AttemptsOn(World(), domain), endsInBackoff, attempt, previous, before, end, r) {
        }
        attempt := attempt + 1;
      }
      res := last.value;
      assert Resolution(AttemptsOn(World(), domain), endsInBackoff, attempt, last, wire.sent, wire.sent, res);
    }

    // Fixed for NXDOMAIN; otherwise the answer's own lifetime, or the least allowed if it has none,
    // with the jitter drawn for it and then clamped.
    predicate LifetimeOk(res: MXResult, ttl: int, draw: int -> int) {
      if res.status.NoDomain? then ttl == ttlNeg
      else
        var base := if res.ttlSeconds > 0 then res.ttlSeconds * 1_000_000_000 else ttlMin;
        0 < ttlMin <= ttlMax ==>
          ttl == if base + draw(base) < ttlMin then ttlMin else if base + draw(base) > ttlMax then ttlMax
                 else base + draw(base)
    }

    method CacheTtlFor(res: MXResult, draw: int -> int) returns (ttl: int)
      requires forall b :: Abs(10 * draw(b)) <= Abs(b)
      ensures LifetimeOk(res, ttl, draw)
      ensures res.status != NoDomain && 0 < ttlMin <= ttlMax ==> ttlMin <= ttl <= ttlMax
      // within a tenth of the lifetime of the answer, where that is allowed
      ensures res.status != NoDomain && 0 < ttlMin <= res.ttlSeconds * 1_000_000_000 <= ttlMax ==>
        9 * res.ttlSeconds * 1_000_000_000 <= 10 * ttl <= 11 * res.ttlSeconds * 1_000_000_000
    {
      if res.status.NoDomain? {
        return ttlNeg;
      }
      var base := res.ttlSeconds * SECOND;
      ttl := JitteredTTL(base, ttlMin, ttlMax, draw(if base <= 0 then ttlMin else base));
    }

    // The layers there are hold this entry, Redis unless it refused it.
    predicate Holds(k: Key, e: Entry<MXResult>, refused: bool)
      reads cache.Parts()
    {
      && (cache.l1 != null ==> k in cache.l1.entries && cache.l1.entries[k] == e)
      && (cache.l2 != null && !refused ==> k in cache.l2.store && cache.l2.store[k] == e)
    }

    function Lasting(res: MXResult, now: int, ttl: int): Entry<MXResult> {
      Entry(res, if ttl > 0 then Some(now + ttl) else None)
    }

    // The flight of a miss once it has its slot: resolve, and store what is definitive.
    method Fly(domain: Text, c: Circumstances) returns (res: MXResult, ghost ttl: int)
      requires Separate() && CacheOk(cache.View(c.now)) && domain !in c.evicted
      requires forall b :: Abs(10 * c.draw(b)) <= Abs(b)
      modifies wire, cache.Parts()
      ensures CacheOk(cache.View(c.now))
      ensures Resolution(AttemptsOn(World(), domain), c.endsInBackoff, 0, None, old(wire.sent), wire.sent, res)
      ensures Transient(res.status) || LifetimeOk(res, ttl, c.draw)
      ensures cache.View(c.now) ==
        if Transient(res.status) then old(cache.View(c.now))
        else Apply(Apply(old(cache.View(c.now)), DropL1(c.evicted)), Event.Set(domain, res, ttl, c.l2WriteFails))
      ensures wire.sent - old(wire.sent) <= 3 * 2 * (retries + 2)
      ensures Drawn(domain, res) && WellFormed(res) && res.domain == domain
      ensures Transient(res.status) ==>
        GaveUp(AttemptsOn(World(), domain), c.endsInBackoff, old(wire.sent), wire.sent, res)
      ensures Heeds(wire.packets(old(wire.sent)), wire.sent - old(wire.sent), domain, ttlNeg / SECOND, res)
      ensures !Transient(res.status) ==> Holds(domain, Lasting(res, c.now, ttl), c.l2WriteFails)
    {
      ghost var start := wire.sent;
      res := ResolveMXWithRetry(domain, c.endsInBackoff);
      ResolutionBounds(World(), domain, c.endsInBackoff, start, wire.sent, res);
      FirstReplyResolves(World(), domain, c.endsInBackoff, start, wire.sent, res);
      ttl := Store(domain, res, c);
    }

    // A definitive answer goes into the cache.
    method Store(domain: Text, res: MXResult, c: Circumstances) returns (ghost ttl: int)
      requires Separate() && CacheOk(cache.View(c.now)) && domain !in c.evicted && Drawn(domain, res)
      requires forall b :: Abs(10 * c.draw(b)) <= Abs(b)
      modifies cache.Parts()
      ensures CacheOk(cache.View(c.now))
      ensures Transient(res.status) || LifetimeOk(res, ttl, c.draw)
      ensures cache.View(c.now) ==
        if Transient(res.status) then old(cache.View(c.now))
        else Apply(Apply(old(cache.View(c.now)), DropL1(c.evicted)), Event.Set(domain, res, ttl, c.l2WriteFails))
      ensures !Transient(res.status) ==> Holds(domain, Lasting(res, c.now, ttl), c.l2WriteFails)
    {
      ghost var read := cache.View(c.now);
      ttl := 0;
      if !Transient(res.status) {
        var life := CacheTtlFor(res, c.draw);
        ttl := life;
        CacheStaysOk(read, DropL1(c.evicted));
        CacheStaysOk(Apply(read, DropL1(c.evicted)), Event.Set(domain, res, life, c.l2WriteFails));
        cache.Set(domain, res, life, c.now, c.evicted, c.l2WriteFails);
      }
    }

    // What a miss answers that got its slot: drawn from the packets after `from`, and stored if it
    // is definitive.
    ghost predicate Resolved(key: Key, c: Circumstances, from: nat, answer: Lookup, ttl: int)
      reads wire, cache.Parts()
    {
      && answer.Found? && answer.error == ErrorOf(answer.res.status)
      && Resolution(AttemptsOn(World(), key), c.endsInBackoff, 0, None, from, wire.sent, answer.res)
      && Heeds(wire.packets(from), wire.sent - from, key, ttlNeg / SECOND, answer.res)
      && (answer.res.status in {TimedOut, ServerFailed}
          || (LifetimeOk(answer.res, ttl, c.draw) && Holds(key, Lasting(answer.res, c.now, ttl), c.l2WriteFails)))
    }

    // From the cache miss on.
    method Miss(domain: Text, c: Circumstances) returns (answer: Lookup, ghost ttl: int)
      requires Separate() && CacheOk(cache.View(c.now)) && domain !in c.evicted
      requires forall b :: Abs(10 * c.draw(b)) <= Abs(b)
      modifies wire, cache.Parts()
      ensures CacheOk(cache.View(c.now))
      ensures var t0, t := old(cache.View(c.now)), cache.View(c.now);
        if c.limiterError || c.acquireError then
          && answer == NoResult(if c.limiterError then RateLimited else ContextDone)
          && t == t0 && wire.sent == old(wire.sent)
        else
          && Resolved(domain, c, old(wire.sent), answer, ttl)
          && t == if answer.res.status in {TimedOut, ServerFailed} then t0
                  else Apply(Apply(t0, DropL1(c.evicted)), Event.Set(domain, answer.res, ttl, c.l2WriteFails))
      ensures wire.sent - old(wire.sent) <= 3 * 2 * (retries + 2)
      ensures answer.Found? ==> Drawn(domain, answer.res) && WellFormed(answer.res) && answer.res.domain == domain
      ensures answer.Found? && Transient(answer.res.status) ==>
        GaveUp(AttemptsOn(World(), domain), c.endsInBackoff, old(wire.sent), wire.sent, answer.res)
      // told NXDOMAIN: no such domain, after one packet, and the cache knows it
      ensures var x := wire.packets(old(wire.sent));
        !c.limiterError && !c.acquireError && x.Reply? && !x.truncated && x.rcode == 3 ==>
          && wire.sent == old(wire.sent) + 1
          && answer == Found(MXResult(domain, [], false, false, [], NoDomain, ttlNeg / SECOND), Some(NXDomain))
          && Holds(domain, Lasting(answer.res, c.now, ttlNeg), c.l2WriteFails)
    {
      ttl := 0;
      if c.limiterError {
        return NoResult(RateLimited), ttl;
      }
      if c.acquireError {
        return NoResult(ContextDone), ttl;
      }
      var res;
      res, ttl := Fly(domain, c);
      return Found(res, ErrorOf(res.status)), ttl;
    }

    /** LookupMX: what a caller can rely on whatever the network, Redis and the clock do. */
    method LookupMX(name: Text, c: Circumstances) returns (answer: Lookup, ghost ttl: int)
      requires Separate() && CacheOk(cache.View(c.now))
      requires forall b :: Abs(10 * c.draw(b)) <= Abs(b)
      requires Lower(TrimDot(name)) !in c.evicted + c.copied
      modifies wire, cache.Parts()
      // the cache never learns anything but definitive answers drawn from replies about their own key
      ensures CacheOk(cache.View(c.now))
      ensures var key := Lower(TrimDot(name)); var t0, t := old(cache.View(c.now)), cache.View(c.now);
        var read := Read(t0, key, c.l2ReadFails, c.copied); var hit := Answer(t0, key, c.l2ReadFails);
        if key == [] then answer == NoResult(NXDomain) && t == t0 && wire.sent == old(wire.sent)
        // a hit costs nothing
        else if hit.Some? then
          answer == Found(hit.value, ErrorOf(hit.value.status)) && t == read && wire.sent == old(wire.sent)
        else if c.limiterError || c.acquireError then
          && answer == NoResult(if c.limiterError then RateLimited else ContextDone)
          && t == read && wire.sent == old(wire.sent)
        // a miss resolves, and stores a definitive answer
        else
          && Resolved(key, c, old(wire.sent), answer, ttl)
          && t == if answer.res.status in {TimedOut, ServerFailed} then read
                  else Apply(Apply(read, DropL1(c.evicted)), Event.Set(key, answer.res, ttl, c.l2WriteFails))
      ensures wire.sent - old(wire.sent) <= 3 * 2 * (retries + 2)
      ensures answer.Found? ==>
        Drawn(Lower(TrimDot(name)), answer.res) && WellFormed(answer.res) && answer.res.domain == Lower(TrimDot(name))
      ensures answer.Found? && Transient(answer.res.status) ==>
        GaveUp(AttemptsOn(World(), Lower(TrimDot(name))), c.endsInBackoff, old(wire.sent), wire.sent, answer.res)
      // a miss that is told NXDOMAIN: no such domain, after one packet, and the cache knows it
      ensures var key, x := Lower(TrimDot(name)), wire.packets(old(wire.sent));
        key != [] && Answer(old(cache.View(c.now)), key, c.l2ReadFails) == None && !c.limiterError && !c.acquireError
        && x.Reply? && !x.truncated && x.rcode == 3 ==>
          && wire.sent == old(wire.sent) + 1
          && answer == Found(MXResult(key, [], false, false, [], NoDomain, ttlNeg / SECOND), Some(NXDomain))
          && Holds(key, Lasting(answer.res, c.now, ttlNeg), c.l2WriteFails)
    {
      var domain := Lower(TrimDot(name));
      ttl := 0;
      if domain == [] {
        return NoResult(NXDomain), ttl;
      }
      ReadStaysOk(cache.View(c.now), domain, c.l2ReadFails, c.copied);
      var hit := cache.Get(domain, c.now, c.copied, c.l2ReadFails);
      if hit.Some? {
        DrawnIsWellFormed(domain, hit.value);
        return Found(hit.value, ErrorOf(hit.value.status)), ttl;
      }
      answer, ttl := Miss(domain, c);
    }
  }

  function Abs(x: int): nat { if x < 0 then -x else x }
}
