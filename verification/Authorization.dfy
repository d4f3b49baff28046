/**
 Authorization decisions over a run (src/authorization.rs): where an acceptance may come from, given
 the local list, the cache, the device-model switches and a CSMS that may not answer. Requests are
 decided one at a time; switches, list and cache may change at every await in between.
 */
module Authorization {
  import opened Options
  import opened AuthorizationCaches

  /** The device-model variables read, already defaulted. */
  datatype Switches = Switches(
    localAuthorizeOffline: bool,
    cacheEnabled: bool,
    offlineTxForUnknownId: bool,
    disableRemoteAuthorization: bool,
    cacheLifeTime: Option<nat>)

  datatype ListEntry = ListEntry(token: Token, status: Status)

  /** What the station knows when it decides for itself. */
  datatype Local = Local(switches: Switches, list: seq<ListEntry>, entries: seq<Entry>)

  function Listed(list: seq<ListEntry>, token: Token): Option<Status> {
    if list == [] then None
    else if list[0].token == token then Some(list[0].status)
    else Listed(list[1..], token)
  }

  function OfflineDecision(l: Local, token: Token, now: Option<Instant>): Status {
    if !l.switches.localAuthorizeOffline then Rejected
    else
      match Listed(l.list, token)
      case Some(status) => status
      case None =>
        if !l.switches.cacheEnabled then Rejected
        else
          match Usable(l.entries, token, now, l.switches.cacheLifeTime)
          case Some(entry) => entry.status
          case None => if l.switches.offlineTxForUnknownId then Accepted else Rejected
  }

  function LocalOnlyDecision(l: Local, token: Token, now: Option<Instant>): Status {
    match Listed(l.list, token)
    case Some(status) => status
    case None =>
      if !l.switches.cacheEnabled then Rejected
      else
        match Usable(l.entries, token, now, l.switches.cacheLifeTime)
        case Some(entry) => entry.status
        case None => Rejected
  }

  // --- Why an acceptance is right ----------------------------------------------------------------

  datatype CertificateVerdict = Good | Bad

  /** How the CSMS came into it: not asked, unreachable, or answering - with a word on the contract or none. */
  datatype Asked = NotAsked | Unreachable | Answered(status: Status, certificate: Option<CertificateVerdict>)

  /** The first entry for the token has this status. */
  predicate ListSays(l: Local, token: Token, status: Status) {
    exists i :: 0 <= i < |l.list| && l.list[i].token == token && l.list[i].status == status
                && forall j :: 0 <= j < i ==> l.list[j].token != token
  }

  predicate ListIsSilent(l: Local, token: Token) {
    forall i :: 0 <= i < |l.list| ==> l.list[i].token != token
  }

  /** The cache is in use and holds an unexpired entry with this status. */
  predicate CacheSays(l: Local, token: Token, now: Option<Instant>, status: Status) {
    l.switches.cacheEnabled &&
    exists i :: 0 <= i < |l.entries| && l.entries[i].token == token && l.entries[i].status == status
                && !IsExpired(l.entries[i], now, l.switches.cacheLifeTime)
  }

  predicate CacheIsSilent(l: Local, token: Token, now: Option<Instant>) {
    l.switches.cacheEnabled &&
    forall i :: 0 <= i < |l.entries| && l.entries[i].token == token ==>
      IsExpired(l.entries[i], now, l.switches.cacheLifeTime)
  }

  /** The evidence a plain acceptance needs. */
  predicate PlainEvidence(l: Local, token: Token, now: Option<Instant>, asked: Asked) {
    match asked
    case Answered(status, _) => status == Accepted
    case NotAsked =>
      ListSays(l, token, Accepted) || (ListIsSilent(l, token) && CacheSays(l, token, now, Accepted))
    case Unreachable =>
      && l.switches.localAuthorizeOffline
      && (|| ListSays(l, token, Accepted)
          || (&& ListIsSilent(l, token)
              && (|| CacheSays(l, token, now, Accepted)
                  || (CacheIsSilent(l, token, now) && l.switches.offlineTxForUnknownId))))
  }

  /** A contract needs the CSMS itself, accepting the token and not rejecting the certificate. */
  predicate ContractEvidence(asked: Asked) {
    asked.Answered? && asked.status == Accepted && asked.certificate != Some(Bad)
  }

  lemma {:induction false} SilentMeansUnlisted(list: seq<ListEntry>, token: Token)
    ensures Listed(list, token).None? <==> forall i :: 0 <= i < |list| ==> list[i].token != token
  {
    if list != [] {
      SilentMeansUnlisted(list[1..], token);
      assert forall i :: 1 <= i < |list| ==> list[i] == list[1..][i - 1];
    }
  }

  lemma {:induction false} FirstListedDecides(list: seq<ListEntry>, token: Token, i: nat)
    requires i < |list| && list[i].token == token
    requires forall j :: 0 <= j < i ==> list[j].token != token
    ensures Listed(list, token) == Some(list[i].status)
  {
    if i > 0 {
      assert list[0].token != token;
      assert forall j :: 0 <= j < i - 1 ==> list[1..][j] == list[j + 1];
      FirstListedDecides(list[1..], token, i - 1);
    }
  }

  lemma {:induction false} SomeEntryIsFirst(list: seq<ListEntry>, token: Token) returns (i: nat)
    requires exists k :: 0 <= k < |list| && list[k].token == token
    ensures i < |list| && list[i].token == token && forall j :: 0 <= j < i ==> list[j].token != token
  {
    if list[0].token == token {
      i := 0;
    } else {
      var k :| 0 <= k < |list| && list[k].token == token;
      assert list[1..][k - 1].token == token;
      var rest := SomeEntryIsFirst(list[1..], token);
      i := rest + 1;
      assert forall j :: 1 <= j < i ==> list[j] == list[1..][j - 1];
    }
  }

  lemma ListedIsWhatTheListSays(l: Local, token: Token)
    ensures ListIsSilent(l, token) <==> Listed(l.list, token) == None
    ensures forall status :: ListSays(l, token, status) <==> Listed(l.list, token) == Some(status)
  {
    SilentMeansUnlisted(l.list, token);
    if !ListIsSilent(l, token) {
      var i := SomeEntryIsFirst(l.list, token);
      FirstListedDecides(l.list, token, i);
      assert ListSays(l, token, l.list[i].status);
      forall status | ListSays(l, token, status) ensures status == l.list[i].status {
        var k :| 0 <= k < |l.list| && l.list[k].token == token && l.list[k].status == status
                 && forall j :: 0 <= j < k ==> l.list[j].token != token;
        FirstListedDecides(l.list, token, k);
      }
    }
  }

  lemma UsableIsWhatTheCacheSays(l: Local, token: Token, now: Option<Instant>)
    requires Distinct(l.entries) && l.switches.cacheEnabled
    ensures forall status :: CacheSays(l, token, now, status) <==>
              var entry := Usable(l.entries, token, now, l.switches.cacheLifeTime);
              entry.Some? && entry.value.status == status
    ensures CacheIsSilent(l, token, now) <==> Usable(l.entries, token, now, l.switches.cacheLifeTime).None?
  {
    FindIsMembership(l.entries, token);
    assert forall i :: 0 <= i < |l.entries| ==> l.entries[i] in l.entries;
  }

  /** The two local decisions accept exactly on the evidence, whatever the switches. */
  lemma LocalDecisionsNeedEvidence(l: Local, token: Token, now: Option<Instant>)
    requires Distinct(l.entries)
    ensures OfflineDecision(l, token, now) == Accepted <==> PlainEvidence(l, token, now, Unreachable)
    ensures LocalOnlyDecision(l, token, now) == Accepted <==> PlainEvidence(l, token, now, NotAsked)
  {
    ListedIsWhatTheListSays(l, token);
    if l.switches.cacheEnabled {
      UsableIsWhatTheCacheSays(l, token, now);
    }
  }

  // --- The loop over requests, step by step ------------------------------------------------------

  /** The one request being decided: free, waiting for the CSMS, or storing its answer. */
  datatype Worker =
    | Free
    | Asking(token: Token, contract: bool, now: Option<Instant>)
    | Storing(token: Token, contract: bool, now: Option<Instant>, answer: Asked)

  /** A decision with everything it was taken on, and the CSMS decisions recorded by then. */
  datatype Decision = Decision(
    token: Token,
    contract: bool,
    now: Option<Instant>,
    status: Status,
    asked: Asked,
    local: Local,
    recorded: map<Token, Status>)

  /**
   The CSMS decisions so far, per token: the latest one written to the cache, the latest one given,
   and, where the actor's full mailbox kept the latest one from being written, that one.
   */
  datatype Memory = Memory(recorded: map<Token, Status>, given: map<Token, Status>, refused: map<Token, Status>)

  /** `calls` counts requests sent to the CSMS. */
  datatype State = State(
    local: Local,
    maxEntries: nat,
    worker: Worker,
    memory: Memory,
    calls: nat,
    decisions: seq<Decision>)

  datatype Step =
    | Reconfigure(switches: Switches)
    | ListChanges(list: seq<ListEntry>)
    | CacheLoses(token: Token)
    | ClearCache(applied: bool)
    | Request(token: Token, contract: bool, now: Option<Instant>)
    | CsmsAnswers(status: Status, certificate: Option<CertificateVerdict>)
    | CsmsUnreachable
    | Stored(applied: bool)

  predicate Init(s: State) {
    && 0 < s.maxEntries && s.local.entries == [] && s.worker == Free
    && s.memory == Memory(map[], map[], map[]) && s.decisions == []
  }

  predicate Enabled(s: State, step: Step) {
    match step
    case Request(_, _, _) => s.worker.Free?
    case CsmsAnswers(_, _) => s.worker.Asking?
    case CsmsUnreachable => s.worker.Asking?
    case Stored(_) => s.worker.Storing? && s.worker.answer.Answered? && 0 < s.maxEntries
    case _ => true
  }

  /** What a CSMS answer comes down to: for a contract, both halves of it. */
  function Verdict(contract: bool, asked: Asked): Status {
    if asked.Answered? && asked.status == Accepted && (contract ==> asked.certificate != Some(Bad))
    then Accepted else Rejected
  }

  function Decided(s: State, token: Token, contract: bool, now: Option<Instant>, status: Status, asked: Asked): State {
    s.(worker := Free,
       decisions := s.decisions + [Decision(token, contract, now, status, asked, s.local, s.memory.recorded)])
  }

  function AfterRequest(s: State, token: Token, contract: bool, now: Option<Instant>): State {
    if !s.local.switches.disableRemoteAuthorization
    then s.(worker := Asking(token, contract, now), calls := s.calls + 1)
    else Decided(s, token, contract, now,
                 if contract then Rejected else LocalOnlyDecision(s.local, token, now), NotAsked)
  }

  function AfterUnreachable(s: State): State
    requires s.worker.Asking?
  {
    var w := s.worker;
    Decided(s, w.token, w.contract, w.now,
            if w.contract then Rejected else OfflineDecision(s.local, w.token, w.now), Unreachable)
  }

  /** The answer is written to the cache, unless the actor's mailbox refuses it, and then acted on. */
  function AfterStored(s: State, applied: bool): State
    requires s.worker.Storing? && 0 < s.maxEntries
  {
    var w := s.worker;
    var status := Verdict(w.contract, w.answer);
    var given := s.memory.given[w.token := status];
    var written :=
      if !applied then s.(memory := Memory(s.memory.recorded, given, s.memory.refused[w.token := status]))
      else s.(local := s.local.(entries := Remembered(s.local.entries, s.maxEntries, Entry(w.token, status, w.now))),
              memory := Memory(s.memory.recorded[w.token := status], given, s.memory.refused - {w.token}));
    Decided(written, w.token, w.contract, w.now, status, w.answer)
  }

  function Next(s: State, step: Step): State
    requires Enabled(s, step)
  {
    match step
    case Reconfigure(switches) => s.(local := s.local.(switches := switches))
    case ListChanges(list) => s.(local := s.local.(list := list))
    case CacheLoses(token) => s.(local := s.local.(entries := Without(s.local.entries, token)))
    case ClearCache(applied) =>
      if s.local.switches.cacheEnabled && applied then s.(local := s.local.(entries := [])) else s
    case Request(token, contract, now) => AfterRequest(s, token, contract, now)
    case CsmsAnswers(status, certificate) =>
      s.(worker := Storing(s.worker.token, s.worker.contract, s.worker.now, Answered(status, certificate)))
    case CsmsUnreachable => AfterUnreachable(s)
    case Stored(applied) => AfterStored(s, applied)
  }

  predicate Runs(s: State, steps: seq<Step>)
    decreases |steps|
  {
    steps == [] || (Enabled(s, steps[0]) && Runs(Next(s, steps[0]), steps[1..]))
  }

  function Execute(s: State, steps: seq<Step>): State
    requires Runs(s, steps)
    decreases |steps|
  {
    if steps == [] then s else Execute(Next(s, steps[0]), steps[1..])
  }

  // --- What holds in every run -------------------------------------------------------------------

  /** Every cached status is the latest CSMS decision recorded for its token. */
  ghost predicate CacheInv(entries: seq<Entry>, recorded: map<Token, Status>) {
    Distinct(entries) &&
    forall e :: e in entries ==> e.token in recorded && recorded[e.token] == e.status
  }

  ghost predicate MemoryInv(m: Memory) {
    forall t :: t in m.recorded ==>
      t in m.given && m.given[t] == if t in m.refused then m.refused[t] else m.recorded[t]
  }

  /** Accepted exactly on evidence, taken from a cache that says only what the CSMS last said. */
  ghost predicate Justified(d: Decision) {
    && CacheInv(d.local.entries, d.recorded)
    && (d.status == Accepted <==>
          if d.contract then ContractEvidence(d.asked) else PlainEvidence(d.local, d.token, d.now, d.asked))
    && (d.asked.NotAsked? ==> d.local.switches.disableRemoteAuthorization)
  }

  /** The latest decision about `t` that the CSMS itself gave. */
  function LatestWord(decisions: seq<Decision>, t: Token): Option<Status> {
    if decisions == [] then None
    else
      var last := decisions[|decisions| - 1];
      if last.token == t && last.asked.Answered? then Some(last.status)
      else LatestWord(decisions[..|decisions| - 1], t)
  }

  ghost predicate GivenInv(given: map<Token, Status>, decisions: seq<Decision>) {
    forall t :: LatestWord(decisions, t) == if t in given then Some(given[t]) else None
  }

  lemma DecisionKeepsGiven(given: map<Token, Status>, decisions: seq<Decision>, d: Decision)
    requires GivenInv(given, decisions)
    ensures GivenInv(if d.asked.Answered? then given[d.token := d.status] else given, decisions + [d])
  {
    assert (decisions + [d])[..|decisions|] == decisions;
  }

  ghost predicate AllJustified(decisions: seq<Decision>) {
    forall i :: 0 <= i < |decisions| ==> Justified(decisions[i])
  }

  ghost predicate Inv(s: State) {
    && 0 < s.maxEntries
    && CacheInv(s.local.entries, s.memory.recorded)
    && MemoryInv(s.memory) && GivenInv(s.memory.given, s.decisions)
    && (s.worker.Storing? ==> s.worker.answer.Answered?)
    && AllJustified(s.decisions)
  }

  lemma StoringKeepsCache(s: State)
    requires Inv(s) && s.worker.Storing?
    ensures var status := Verdict(s.worker.contract, s.worker.answer);
            CacheInv(Remembered(s.local.entries, s.maxEntries, Entry(s.worker.token, status, s.worker.now)),
                     s.memory.recorded[s.worker.token := status])
  {
    RememberedIsFaithful(s.local.entries, s.maxEntries,
                         Entry(s.worker.token, Verdict(s.worker.contract, s.worker.answer), s.worker.now));
  }

  lemma StepKeepsGiven(s: State, step: Step)
    requires GivenInv(s.memory.given, s.decisions) && Enabled(s, step)
    ensures GivenInv(Next(s, step).memory.given, Next(s, step).decisions)
  {
    var e := Next(s, step);
    if e.decisions != s.decisions {
      DecisionKeepsGiven(s.memory.given, s.decisions, e.decisions[|s.decisions|]);
    }
  }

  lemma StepKeepsJustified(s: State, step: Step)
    requires Inv(s) && Enabled(s, step)
    ensures AllJustified(Next(s, step).decisions)
  {
    match step
    case Request(token, contract, now) => LocalDecisionsNeedEvidence(s.local, token, now);
    case CsmsUnreachable => LocalDecisionsNeedEvidence(s.local, s.worker.token, s.worker.now);
    case Stored(_) => StoringKeepsCache(s);
    case _ =>
  }

  lemma StepKeepsInv(s: State, step: Step)
    requires Inv(s) && Enabled(s, step)
    ensures Inv(Next(s, step))
  {
    StepKeepsJustified(s, step);
    StepKeepsGiven(s, step);
    match step
    case CacheLoses(token) => WithoutForgets(s.local.entries, token);
    case Stored(_) => StoringKeepsCache(s);
    case _ =>
  }

  lemma {:induction false} RunKeepsInv(s: State, steps: seq<Step>)
    requires Inv(s) && Runs(s, steps)
    ensures Inv(Execute(s, steps))
    decreases |steps|
  {
    if steps != [] {
      StepKeepsInv(s, steps[0]);
      RunKeepsInv(Next(s, steps[0]), steps[1..]);
    }
  }

  /**
   In every run, every decision is an acceptance exactly when the evidence is there: for a contract a
   CSMS answer to this request that accepts the token and does not reject the certificate; otherwise
   the CSMS accepting this request, or the list, or an unexpired cache entry, or the unknown-identifier
   switch with list and cache silent. An entry's status is the latest CSMS decision recorded for its
   token.
   */
  lemma AcceptanceNeedsEvidence(s: State, steps: seq<Step>, i: nat)
    requires Init(s) && Runs(s, steps) && i < |Execute(s, steps).decisions|
    ensures Justified(Execute(s, steps).decisions[i])
    ensures var d := Execute(s, steps).decisions[i];
            d.status == Accepted && !d.contract && CacheSays(d.local, d.token, d.now, Accepted) ==>
              d.token in d.recorded && d.recorded[d.token] == Accepted
  {
    RunKeepsInv(s, steps);
  }

  /** With remote authorization disabled a request is decided at once: no CSMS call, and the cache untouched. */
  lemma DisabledMeansLocal(s: State, token: Token, contract: bool, now: Option<Instant>)
    requires s.worker.Free? && s.local.switches.disableRemoteAuthorization
    ensures var e := Next(s, Request(token, contract, now));
            && e.calls == s.calls && e.local == s.local && e.memory == s.memory && e.worker.Free?
            && |e.decisions| == |s.decisions| + 1 && e.decisions[|s.decisions|].asked == NotAsked
            && (contract ==> e.decisions[|s.decisions|].status == Rejected)
  {
  }

  /**
   A whole request the CSMS answers: it is asked once, the decision is taken on that answer, and with
   the mailbox taking the write the cache holds it, stamped with the time of the request.
   */
  lemma AnsweredRequestIsRemembered(
    s: State, token: Token, contract: bool, now: Option<Instant>,
    status: Status, certificate: Option<CertificateVerdict>)
    returns (asking: State, storing: State, e: State)
    requires Inv(s) && s.worker.Free? && !s.local.switches.disableRemoteAuthorization
    ensures asking == Next(s, Request(token, contract, now))
    ensures Enabled(asking, CsmsAnswers(status, certificate)) && asking.calls == s.calls + 1
    ensures storing == Next(asking, CsmsAnswers(status, certificate))
    ensures Enabled(storing, Stored(true)) && e == Next(storing, Stored(true)) && e.worker.Free?
    ensures |e.decisions| == |s.decisions| + 1
    ensures var d := e.decisions[|s.decisions|];
            && d.token == token && d.contract == contract && d.now == now
            && d.asked == Answered(status, certificate)
            && (d.status == Accepted <==> status == Accepted && (contract ==> certificate != Some(Bad)))
            && Find(e.local.entries, token) == Some(Entry(token, d.status, now))
  {
    asking := Next(s, Request(token, contract, now));
    storing := Next(asking, CsmsAnswers(status, certificate));
    e := Next(storing, Stored(true));
    RememberedIsFaithful(s.local.entries, s.maxEntries, Entry(token, Verdict(contract, Answered(status, certificate)), now));
  }

  /**
   A `ClearCache` answered `Accepted` leaves an empty cache exactly if the mailbox took it or the cache
   was empty; one answered `Rejected` leaves the cache alone.
   */
  lemma ClearCacheClearsIff(s: State, applied: bool)
    ensures var after := Next(s, ClearCache(applied));
            && (s.local.switches.cacheEnabled ==>
                  (after.local.entries == [] <==> applied || s.local.entries == []))
            && (!s.local.switches.cacheEnabled ==> after == s)
            && (after.local.entries == s.local.entries || after.local.entries == [])
  {
  }

  /**
   In every run an entry repeats the CSMS's latest word on its token exactly if the mailbox took the
   latest write for the token, or the write it refused said the same.
   */
  lemma CacheIsUpToDateIff(s: State, steps: seq<Step>, e: Entry)
    requires Init(s) && Runs(s, steps) && e in Execute(s, steps).local.entries
    ensures var end := Execute(s, steps);
            var word := LatestWord(end.decisions, e.token);
            && word.Some?
            && (word.value == e.status <==>
                  e.token !in end.memory.refused || end.memory.refused[e.token] == e.status)
  {
    RunKeepsInv(s, steps);
  }

  /**
   A decision is remembered exactly when the mailbox takes the write, unless the very same entry was
   there already; and the cache contradicts it afterwards exactly when the write is refused while an
   older entry says otherwise.
   */
  lemma RememberedIff(s: State, applied: bool)
    requires Inv(s) && s.worker.Storing?
    ensures var w := s.worker;
            var entry := Entry(w.token, Verdict(w.contract, w.answer), w.now);
            Find(AfterStored(s, applied).local.entries, w.token) == Some(entry)
            <==> applied || Find(s.local.entries, w.token) == Some(entry)
    ensures Contradicts(AfterStored(s, applied).local.entries, s.worker)
            <==> !applied && Contradicts(s.local.entries, s.worker)
  {
    var w := s.worker;
    RememberedIsFaithful(s.local.entries, s.maxEntries, Entry(w.token, Verdict(w.contract, w.answer), w.now));
  }

  /** The cache holds another status for the token than the CSMS has just decided. */
  predicate Contradicts(entries: seq<Entry>, worker: Worker)
    requires worker.Storing?
  {
    var held := Find(entries, worker.token);
    held.Some? && held.value.status != Verdict(worker.contract, worker.answer)
  }

  /** Every cached status is the CSMS's latest word on its token. */
  ghost predicate UpToDate(s: State) {
    forall e :: e in s.local.entries ==> LatestWord(s.decisions, e.token) == Some(e.status)
  }

  predicate NoneRefused(steps: seq<Step>) {
    forall i :: 0 <= i < |steps| ==> steps[i] != Stored(false)
  }

  lemma {:induction false} NoneRefusedMeansNoneOutdated(s: State, steps: seq<Step>)
    requires Runs(s, steps) && NoneRefused(steps) && s.memory.refused == map[]
    ensures Execute(s, steps).memory.refused == map[]
    decreases |steps|
  {
    if steps != [] {
      assert steps[0] != Stored(false);
      assert forall i :: 0 <= i < |steps[1..]| ==> steps[1..][i] == steps[i + 1];
      NoneRefusedMeansNoneOutdated(Next(s, steps[0]), steps[1..]);
    }
  }

  /** A run in which no write is refused ends with the whole cache up to date. */
  lemma UpToDateIfNoneRefused(s: State, steps: seq<Step>)
    requires Init(s) && Runs(s, steps) && NoneRefused(steps)
    ensures UpToDate(Execute(s, steps))
  {
    RunKeepsInv(s, steps);
    NoneRefusedMeansNoneOutdated(s, steps);
  }

  lemma {:induction false} Then(s: State, steps: seq<Step>, e: State, step: Step)
    returns (longer: seq<Step>, next: State)
    requires Runs(s, steps) && Execute(s, steps) == e && Enabled(e, step)
    ensures longer == steps + [step] && next == Next(e, step)
    ensures Runs(s, longer) && Execute(s, longer) == next
    decreases |steps|
  {
    longer, next := steps + [step], Next(e, step);
    if steps == [] {
      assert longer[1..] == [] && Runs(next, []);
    } else {
      var tail, end := Then(Next(s, steps[0]), steps[1..], e, step);
      assert longer[1..] == tail;
    }
  }

  const DEFAULTS := Switches(true, true, false, false, None)

  /** A station at rest that has cached one acceptance, as a fresh one has after its first request. */
  lemma AcceptedOnce(token: Token) returns (s: State, steps: seq<Step>, e: State)
    ensures Init(s) && s.local.switches == DEFAULTS && Runs(s, steps) && e == Execute(s, steps)
    ensures e.local == Local(DEFAULTS, [], [Entry(token, Accepted, None)])
    ensures e.worker == Free && e.maxEntries == 50
    ensures |e.decisions| == 1 && e.decisions[0].token == token
  {
    s := State(Local(DEFAULTS, [], []), 50, Free, Memory(map[], map[], map[]), 0, []);
    steps, e := Then(s, [], s, Request(token, false, None));
    steps, e := Then(s, steps, e, CsmsAnswers(Accepted, None));
    steps, e := Then(s, steps, e, Stored(true));
  }

  /** With the defaults, one refused write lets a token in offline that the CSMS has since rejected. */
  lemma RefusedWriteKeepsOldAcceptance(token: Token) returns (s: State, steps: seq<Step>)
    ensures Init(s) && s.local.switches == DEFAULTS && Runs(s, steps)
    ensures var e := Execute(s, steps);
            && |e.decisions| == 3
            && e.decisions[1].asked == Answered(Rejected, None) && e.decisions[1].status == Rejected
            && e.decisions[2].asked == Unreachable && e.decisions[2].status == Accepted
            && (forall i :: 0 <= i < 3 ==> e.decisions[i].token == token)
            && Entry(token, Accepted, None) in e.local.entries && e.memory.given[token := Rejected] == e.memory.given
  {
    var e;
    s, steps, e := AcceptedOnce(token);
    steps, e := Then(s, steps, e, Request(token, false, None));
    steps, e := Then(s, steps, e, CsmsAnswers(Rejected, None));
    steps, e := Then(s, steps, e, Stored(false));
    steps, e := Then(s, steps, e, Request(token, false, None));
    steps, e := Then(s, steps, e, CsmsUnreachable);
  }
}
