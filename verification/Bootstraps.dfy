// The single-use bootstrap of trials/no-secret/api/app.py: a run exchanges its code for a token and its secrets, once.
module Bootstraps {
  import opened Wrappers

  datatype Outcome = Outcome(exitCode: Option<int>, rest: string)

  /** The code is kept as its hash; the pod's address and start time are recorded later, and may be null. */
  datatype Run = Run(
    codeHash: string,
    secrets: seq<string>,
    status: string,
    podIp: Option<string>,
    startTime: Option<real>,
    consumedAt: Option<real>,
    consumedIp: Option<string>,
    token: Option<string>,
    revoked: bool,
    failure: Option<string>,
    outcome: Option<Outcome>)

  type Runs = map<string, Run>

  datatype Config = Config(internalToken: string, vault: map<string, string>, hash: string -> string)

  const VALIDITY := 600.0

  /** What arrives, with what the handler draws from outside: the clock when it checks and when it grants, and the
      random token. */
  datatype Request =
    | Register(presented: string, id: string, codeHash: string, secrets: seq<string>)
    | RecordPod(presented: string, id: string, ip: Option<string>, start: Option<real>)
    | Exchange(id: string, code: string, caller: string, now: real, granted: real, random: string)
    | Report(id: string, presented: string, outcome: Outcome)
    | Look(presented: string, id: string)

  /** What a run looks like from inside the cluster: all but its code and its token. */
  datatype View = View(secrets: seq<string>, status: string, podIp: Option<string>, startTime: Option<real>,
                       consumedAt: Option<real>, consumedIp: Option<string>, revoked: bool,
                       failure: Option<string>, outcome: Option<Outcome>)

  /** `Dropped` is a handler that fails: the caller gets no answer. */
  datatype Answer =
    | Status(code: nat)
    | Shown(view: View)
    | Granted(token: string, secrets: map<string, string>)
    | Dropped

  function NewRun(codeHash: string, secrets: seq<string>): Run {
    Run(codeHash, secrets, "queued", None, None, None, None, None, false, None, None)
  }

  function ViewOf(r: Run): View {
    View(r.secrets, r.status, r.podIp, r.startTime, r.consumedAt, r.consumedIp, r.revoked, r.failure, r.outcome)
  }

  /** Every declared secret is in the vault. */
  predicate InVault(c: Config, r: Run) {
    forall i :: 0 <= i < |r.secrets| ==> r.secrets[i] in c.vault
  }

  function SecretsOf(c: Config, r: Run): map<string, string>
    requires InVault(c, r)
  {
    map n | n in r.secrets && n in c.vault :: c.vault[n]
  }

  // ------------------------------------------------------------------ the server

  class Server {
    const config: Config
    var runs: Runs

    constructor (config: Config)
      ensures this.config == config && runs == map[]
    {
      this.config := config;
      runs := map[];
    }

    method Handle(r: Request) returns (answer: Answer)
      modifies this
      ensures (runs, answer) == Step(config, old(runs), r)
    {
      match r
      case Register(presented, id, codeHash, secrets) =>
        if presented != config.internalToken { return Status(401); }
        runs := runs[id := NewRun(codeHash, secrets)];
        answer := Status(201);
      case RecordPod(presented, id, ip, start) =>
        if presented != config.internalToken { return Status(401); }
        if id !in runs { return Dropped; }
        runs := runs[id := runs[id].(podIp := ip, startTime := start)];
        answer := Status(200);
      case Exchange(id, code, caller, now, granted, random) =>
        answer := Bootstrap(id, code, caller, now, granted, random);
      case Report(id, presented, outcome) =>
        if id !in runs || runs[id].token.None? || runs[id].revoked || presented != runs[id].token.value {
          return Status(401);
        }
        var run := runs[id].(status := if outcome.exitCode == Some(0) then "succeeded" else "failed");
        runs := runs[id := run.(outcome := Some(outcome))];
        answer := Status(204);
      case Look(presented, id) =>
        if presented != config.internalToken { return Status(401); }
        if id !in runs { return Status(404); }
        answer := Shown(ViewOf(runs[id]));
    }

    /** The order of the checks: unknown code, replay, pod not recorded, expired, other address. */
    method Bootstrap(id: string, code: string, caller: string, now: real, granted: real, random: string)
      returns (answer: Answer)
      modifies this
      ensures (runs, answer) == Step(config, old(runs), Exchange(id, code, caller, now, granted, random))
    {
      if id !in runs || config.hash(code) != runs[id].codeHash { return Status(401); }
      var run := runs[id];
      if run.consumedAt.Some? {
        run := run.(revoked := true, status := "failed");
        run := run.(failure := Some("bootstrap_replayed"));
        runs := runs[id := run];
        return Status(409);
      }
      if run.podIp.None? || run.startTime.None? { return Status(425); }
      if now > run.startTime.value + VALIDITY { return Status(410); }
      if caller != run.podIp.value { return Status(403); }
      run := run.(consumedAt := Some(granted), consumedIp := Some(caller), status := "running");
      run := run.(token := Some(random));
      runs := runs[id := run];
      answer := if InVault(config, run) then Granted(random, SecretsOf(config, run)) else Dropped;
    }
  }

  // ------------------------------------------------------------------ one request

  /** Whether an exchange is answered with a token, and why not. */
  datatype Verdict = Unknown | Replayed | NotReady | Expired | OtherAddress | Fine

  function Judge(c: Config, runs: Runs, id: string, code: string, caller: string, now: real): Verdict {
    if id !in runs || c.hash(code) != runs[id].codeHash then Unknown
    else if runs[id].consumedAt.Some? then Replayed
    else if runs[id].podIp.None? || runs[id].startTime.None? then NotReady
    else if now > runs[id].startTime.value + VALIDITY then Expired
    else if caller != runs[id].podIp.value then OtherAddress
    else Fine
  }

  function Refusal(v: Verdict): Answer {
    match v
    case Unknown => Status(401)
    case Replayed => Status(409)
    case NotReady => Status(425)
    case Expired => Status(410)
    case OtherAddress => Status(403)
    case Fine => Dropped
  }

  function Consumed(r: Run, at: real, caller: string, token: string): Run {
    r.(consumedAt := Some(at), consumedIp := Some(caller), status := "running", token := Some(token))
  }

  function Failed(r: Run): Run {
    r.(revoked := true, status := "failed", failure := Some("bootstrap_replayed"))
  }

  function Step(c: Config, runs: Runs, r: Request): (Runs, Answer) {
    match r
    case Register(presented, id, codeHash, secrets) =>
      if presented != c.internalToken then (runs, Status(401)) else (runs[id := NewRun(codeHash, secrets)], Status(201))
    case RecordPod(presented, id, ip, start) =>
      if presented != c.internalToken then (runs, Status(401))
      else if id !in runs then (runs, Dropped)
      else (runs[id := runs[id].(podIp := ip, startTime := start)], Status(200))
    case Exchange(id, code, caller, now, granted, random) =>
      var verdict := Judge(c, runs, id, code, caller, now);
      if verdict == Fine then
        var run := Consumed(runs[id], granted, caller, random);
        (runs[id := run], if InVault(c, run) then Granted(random, SecretsOf(c, run)) else Dropped)
      else (if verdict == Replayed then runs[id := Failed(runs[id])] else runs, Refusal(verdict))
    case Report(id, presented, outcome) =>
      if id !in runs || runs[id].revoked || runs[id].token != Some(presented) then (runs, Status(401))
      else
        var status := if outcome.exitCode == Some(0) then "succeeded" else "failed";
        (runs[id := runs[id].(status := status, outcome := Some(outcome))], Status(204))
    case Look(presented, id) =>
      if presented != c.internalToken then (runs, Status(401))
      else if id !in runs then (runs, Status(404))
      else (runs, Shown(ViewOf(runs[id])))
  }

  /** The states a sequence of requests goes through, the first one included. */
  function After(c: Config, runs: Runs, requests: seq<Request>, n: nat): Runs
    requires n <= |requests|
  {
    if n == 0 then runs else Step(c, After(c, runs, requests, n - 1), requests[n - 1]).0
  }

  function AnswerTo(c: Config, runs: Runs, requests: seq<Request>, n: nat): Answer
    requires n < |requests|
  {
    Step(c, After(c, runs, requests, n), requests[n]).1
  }

  /** A request that registers this run (again). */
  predicate Registers(c: Config, r: Request, id: string) {
    r.Register? && r.id == id && r.presented == c.internalToken
  }

  /** A request that consumes the code of this run. */
  predicate Consumes(c: Config, runs: Runs, r: Request, id: string) {
    r.Exchange? && r.id == id && Judge(c, runs, id, r.code, r.caller, r.now) == Fine
  }

  predicate Replays(c: Config, runs: Runs, r: Request, id: string) {
    r.Exchange? && r.id == id && Judge(c, runs, id, r.code, r.caller, r.now) == Replayed
  }

  /** What holds of every run at all times. */
  predicate Sound(r: Run) {
    && (r.token.Some? <==> r.consumedAt.Some?) && (r.token.Some? <==> r.consumedIp.Some?)
    && (r.revoked ==> r.token.Some? && r.status == "failed" && r.failure == Some("bootstrap_replayed"))
    && (r.outcome.Some? ==> r.token.Some?)
  }

  predicate AllSound(runs: Runs) {
    forall id :: id in runs ==> Sound(runs[id])
  }

  lemma StepKeepsSound(c: Config, runs: Runs, r: Request)
    requires AllSound(runs)
    ensures AllSound(Step(c, runs, r).0)
  {}

  /** Answered with one of the refusals that are retryable. */
  predicate Refused(a: Answer) {
    a.Status? && a.code in {401, 403, 404, 410, 425}
  }

  /** 401, 403, 404, 410 and 425 change nothing, so a refusal with one of them is retryable. */
  lemma RefusalsChangeNothing(c: Config, runs: Runs, r: Request)
    requires Refused(Step(c, runs, r).1)
    ensures Step(c, runs, r).0 == runs
  {}

  /** No request but a registration of it touches the code, the secrets or an existing token of a run; consumption, the
      token and revocation are for good. */
  ghost predicate Onward(a: Run, b: Run) {
    && b.codeHash == a.codeHash && b.secrets == a.secrets
    && (a.token.Some? ==> b.token == a.token && b.consumedAt == a.consumedAt && b.consumedIp == a.consumedIp)
    && (a.revoked ==> b.revoked)
  }

  lemma StepGoesOnward(c: Config, runs: Runs, r: Request, id: string)
    requires AllSound(runs) && id in runs && !Registers(c, r, id)
    ensures id in Step(c, runs, r).0 && Onward(runs[id], Step(c, runs, r).0[id])
  {}

  // ------------------------------------------------------------------ each answer, told from the run's fields

  /** The code is the one that was registered. */
  predicate RightCode(c: Config, runs: Runs, id: string, code: string) {
    id in runs && c.hash(code) == runs[id].codeHash
  }

  /** Not spent yet, and its pod is recorded. */
  predicate Awaiting(run: Run) {
    run.consumedAt.None? && run.podIp.Some? && run.startTime.Some?
  }

  /** An exchange is answered, in this order: 401 to a wrong code, 409 to a spent one, 425 before the pod is recorded,
      410 more than 600 seconds after its start, 403 to another address; then with the token and the secrets, if the
      vault has them all. */
  lemma ExchangeAnswers(c: Config, runs: Runs, id: string, code: string, caller: string, now: real, granted: real,
                        random: string)
    ensures var answer := Step(c, runs, Exchange(id, code, caller, now, granted, random)).1;
            && (answer == Status(401) <==> !RightCode(c, runs, id, code))
            && (answer == Status(409) <==> RightCode(c, runs, id, code) && runs[id].consumedAt.Some?)
            && (answer == Status(425) <==>
                RightCode(c, runs, id, code) && runs[id].consumedAt.None?
                && (runs[id].podIp.None? || runs[id].startTime.None?))
            && (answer == Status(410) <==>
                RightCode(c, runs, id, code) && Awaiting(runs[id]) && now > runs[id].startTime.value + 600.0)
            && (answer == Status(403) <==>
                RightCode(c, runs, id, code) && Awaiting(runs[id]) && now <= runs[id].startTime.value + 600.0
                && caller != runs[id].podIp.value)
            && (answer.Granted? <==>
                RightCode(c, runs, id, code) && Awaiting(runs[id]) && now <= runs[id].startTime.value + 600.0
                && caller == runs[id].podIp.value
                && forall i :: 0 <= i < |runs[id].secrets| ==> runs[id].secrets[i] in c.vault)
            && (answer.Dropped? <==>
                RightCode(c, runs, id, code) && Awaiting(runs[id]) && now <= runs[id].startTime.value + 600.0
                && caller == runs[id].podIp.value
                && exists i :: 0 <= i < |runs[id].secrets| && runs[id].secrets[i] !in c.vault)
            && (answer.Granted? ==>
                && answer.token == random
                && (forall name :: name in answer.secrets <==> name in runs[id].secrets)
                && forall name :: name in answer.secrets ==> answer.secrets[name] == c.vault[name])
  {}

  /** What an exchange leaves: a good one, answered or not, spends the code; a spent one fails the run; any other leaves
      all as it was. */
  lemma ExchangeLeaves(c: Config, runs: Runs, id: string, code: string, caller: string, now: real, granted: real,
                       random: string)
    ensures var after := Step(c, runs, Exchange(id, code, caller, now, granted, random)).0;
            if !RightCode(c, runs, id, code) then after == runs
            else if runs[id].consumedAt.Some? then
              after == runs[id := runs[id].(revoked := true, status := "failed", failure := Some("bootstrap_replayed"))]
            else if Awaiting(runs[id]) && now <= runs[id].startTime.value + 600.0 && caller == runs[id].podIp.value then
              after == runs[id := runs[id].(consumedAt := Some(granted), consumedIp := Some(caller),
                                            status := "running", token := Some(random))]
            else after == runs
  {}

  /** With the internal token a registration starts the run over, and a pod is recorded for a run that is known. */
  lemma InternalRequests(c: Config, runs: Runs, id: string, codeHash: string, secrets: seq<string>, ip: Option<string>,
                         start: Option<real>)
    ensures var (after, answer) := Step(c, runs, Register(c.internalToken, id, codeHash, secrets));
            && answer == Status(201)
            && after == runs[id := Run(codeHash, secrets, "queued", None, None, None, None, None, false, None, None)]
    ensures var (after, answer) := Step(c, runs, RecordPod(c.internalToken, id, ip, start));
            if id in runs then answer == Status(200) && after == runs[id := runs[id].(podIp := ip, startTime := start)]
            else answer == Dropped && after == runs
    ensures Step(c, runs, Look(c.internalToken, id)).1 == if id in runs then Shown(ViewOf(runs[id])) else Status(404)
  {}

  /** With any other token they are refused. */
  lemma InternalTokenRequired(c: Config, runs: Runs, r: Request)
    requires (r.Register? || r.RecordPod? || r.Look?) && r.presented != c.internalToken
    ensures Step(c, runs, r) == (runs, Status(401))
  {}

  /** A result is taken exactly with the token of a run that is not revoked, and decides its status by its exit code. */
  lemma ReportAnswers(c: Config, runs: Runs, id: string, presented: string, outcome: Outcome)
    ensures var (after, answer) := Step(c, runs, Report(id, presented, outcome));
            if id in runs && runs[id].token == Some(presented) && !runs[id].revoked then
              && answer == Status(204)
              && after == runs[id := runs[id].(outcome := Some(outcome),
                                               status := if outcome.exitCode == Some(0) then "succeeded" else "failed")]
            else answer == Status(401) && after == runs
  {}

  // ------------------------------------------------------------------ one registration

  /** No request from `i` to before `j` registers the run again. */
  predicate OneRegistration(c: Config, requests: seq<Request>, id: string, i: nat, j: nat)
    requires i <= j <= |requests|
  {
    forall k :: i <= k < j ==> !Registers(c, requests[k], id)
  }

  lemma {:induction false} AlwaysSound(c: Config, runs: Runs, requests: seq<Request>, n: nat)
    requires AllSound(runs) && n <= |requests|
    ensures AllSound(After(c, runs, requests, n))
  {
    if n > 0 {
      AlwaysSound(c, runs, requests, n - 1);
      StepKeepsSound(c, After(c, runs, requests, n - 1), requests[n - 1]);
    }
  }

  lemma {:induction false} AlwaysOnward(c: Config, runs: Runs, requests: seq<Request>, id: string, i: nat, j: nat)
    requires AllSound(runs) && i <= j <= |requests| && id in After(c, runs, requests, i)
    requires OneRegistration(c, requests, id, i, j)
    ensures id in After(c, runs, requests, j)
    ensures Onward(After(c, runs, requests, i)[id], After(c, runs, requests, j)[id])
  {
    if i < j {
      AlwaysOnward(c, runs, requests, id, i, j - 1);
      AlwaysSound(c, runs, requests, j - 1);
      StepGoesOnward(c, After(c, runs, requests, j - 1), requests[j - 1], id);
    }
  }

  /** Single use: between two consumptions of the code of a run there is a registration of that run. */
  lemma ConsumedOnce(c: Config, runs: Runs, requests: seq<Request>, id: string, i: nat, j: nat)
    requires AllSound(runs) && i < j < |requests|
    requires Consumes(c, After(c, runs, requests, i), requests[i], id)
    requires Consumes(c, After(c, runs, requests, j), requests[j], id)
    ensures !OneRegistration(c, requests, id, i + 1, j)
  {
    if OneRegistration(c, requests, id, i + 1, j) { StaysSpent(c, runs, requests, id, i, j); }
  }

  lemma StaysSpent(c: Config, runs: Runs, requests: seq<Request>, id: string, i: nat, j: nat)
    requires AllSound(runs) && i < j < |requests|
    requires Consumes(c, After(c, runs, requests, i), requests[i], id)
    requires OneRegistration(c, requests, id, i + 1, j)
    ensures id in After(c, runs, requests, j) && After(c, runs, requests, j)[id].consumedAt.Some?
  {
    ConsumedIsSpent(c, After(c, runs, requests, i), requests[i], id);
    AlwaysOnward(c, runs, requests, id, i + 1, j);
  }

  lemma ConsumedIsSpent(c: Config, runs: Runs, r: Request, id: string)
    requires Consumes(c, runs, r, id)
    ensures var after := Step(c, runs, r).0;
            id in after && after[id].token == Some(r.random) && after[id].consumedAt.Some?
  {}

  /** A grant is a consumption, from the recorded address and within the validity window, with the code that was
      registered; it hands out the token it stores. */
  lemma GrantIsJustified(c: Config, runs: Runs, r: Request)
    requires Step(c, runs, r).1.Granted?
    ensures r.Exchange? && Consumes(c, runs, r, r.id)
    ensures c.hash(r.code) == runs[r.id].codeHash && runs[r.id].podIp == Some(r.caller)
    ensures r.now <= runs[r.id].startTime.value + VALIDITY
    ensures var after := Step(c, runs, r).0[r.id];
            after.token == Some(Step(c, runs, r).1.token) && after.consumedIp == Some(r.caller)
  {}

  /** The token is answered exactly when the code is consumed and the vault has every declared secret: otherwise the
      code is spent without an answer. */
  lemma GrantedExactlyWhen(c: Config, runs: Runs, r: Request)
    requires r.Exchange?
    ensures Step(c, runs, r).1.Granted? <==> Consumes(c, runs, r, r.id) && InVault(c, runs[r.id])
    ensures Step(c, runs, r).1.Dropped? <==> Consumes(c, runs, r, r.id) && !InVault(c, runs[r.id])
  {}

  lemma SpentWithoutAnswer(c: Config, runs: Runs, r: Request, again: Request)
    requires AllSound(runs) && r.Exchange? && Consumes(c, runs, r, r.id) && !InVault(c, runs[r.id])
    requires again == r
    ensures Step(c, runs, r).1 == Dropped && Step(c, Step(c, runs, r).0, again).1 == Status(409)
  {}

  /** One exchange of an unspent code that meets every check is granted. */
  lemma FineIsGranted(c: Config, runs: Runs, r: Request)
    requires r.Exchange? && Consumes(c, runs, r, r.id) && InVault(c, runs[r.id])
    ensures Step(c, runs, r).1 == Granted(r.random, SecretsOf(c, runs[r.id]))
  {
    assert SecretsOf(c, Consumed(runs[r.id], r.granted, r.caller, r.random)) == SecretsOf(c, runs[r.id]);
  }

  /** From `i` to before `j` every request is refused, or is about another run. */
  predicate OnlyRefusals(c: Config, runs: Runs, requests: seq<Request>, id: string, i: nat, j: nat)
    requires i <= j <= |requests|
  {
    forall k :: i <= k < j ==> requests[k].id != id || Refused(AnswerTo(c, runs, requests, k))
  }

  /** A run does not notice them. */
  lemma {:induction false} RefusalsLeaveNoTrace(c: Config, runs: Runs, requests: seq<Request>, id: string, i: nat,
                                                j: nat)
    requires i <= j <= |requests| && OnlyRefusals(c, runs, requests, id, i, j)
    ensures var before, after := After(c, runs, requests, i), After(c, runs, requests, j);
            (id in before <==> id in after) && (id in before ==> after[id] == before[id])
  {
    if i < j {
      RefusalsLeaveNoTrace(c, runs, requests, id, i, j - 1);
      var now := After(c, runs, requests, j - 1);
      if requests[j - 1].id == id { RefusalsChangeNothing(c, now, requests[j - 1]); }
      else { OtherRunsStay(c, now, requests[j - 1], id); }
    }
  }

  lemma OtherRunsStay(c: Config, runs: Runs, r: Request, id: string)
    requires r.id != id
    ensures var after := Step(c, runs, r).0; (id in runs <==> id in after) && (id in runs ==> after[id] == runs[id])
  {}

  /** Whatever was refused before, and whatever happened to other runs: an exchange that would have been granted at `i`
      is granted at `j`, with the same secrets. */
  lemma RetriesSucceed(c: Config, runs: Runs, requests: seq<Request>, i: nat, j: nat)
    requires i <= j < |requests| && requests[j].Exchange? && OnlyRefusals(c, runs, requests, requests[j].id, i, j)
    requires Consumes(c, After(c, runs, requests, i), requests[j], requests[j].id)
    requires InVault(c, After(c, runs, requests, i)[requests[j].id])
    ensures AnswerTo(c, runs, requests, j) ==
              Granted(requests[j].random, SecretsOf(c, After(c, runs, requests, i)[requests[j].id]))
  {
    RefusalsLeaveNoTrace(c, runs, requests, requests[j].id, i, j);
    FineIsGranted(c, After(c, runs, requests, j), requests[j]);
  }

  /** Registrations of this run among the first `n` requests, and codes of it consumed. */
  function Registrations(c: Config, requests: seq<Request>, id: string, n: nat): nat
    requires n <= |requests|
  {
    if n == 0 then 0 else Registrations(c, requests, id, n - 1) + if Registers(c, requests[n - 1], id) then 1 else 0
  }

  function Grants(c: Config, runs: Runs, requests: seq<Request>, id: string, n: nat): nat
    requires n <= |requests|
  {
    if n == 0 then 0
    else
      Grants(c, runs, requests, id, n - 1)
      + if requests[n - 1].Exchange? && requests[n - 1].id == id && AnswerTo(c, runs, requests, n - 1).Granted?
        then 1 else 0
  }

  function Unspent(runs: Runs, id: string): nat {
    if id in runs && runs[id].consumedAt.None? then 1 else 0
  }

  /** Over every request sequence a run is granted at most once per registration. */
  lemma {:induction false} GrantsAtMostRegistrations(c: Config, runs: Runs, requests: seq<Request>, id: string, n: nat)
    requires AllSound(runs) && n <= |requests|
    ensures Grants(c, runs, requests, id, n) + Unspent(After(c, runs, requests, n), id)
            <= Registrations(c, requests, id, n) + Unspent(runs, id)
  {
    if n > 0 {
      GrantsAtMostRegistrations(c, runs, requests, id, n - 1);
      var before := After(c, runs, requests, n - 1);
      AlwaysSound(c, runs, requests, n - 1);
      UnspentFalls(c, before, requests[n - 1], id);
    }
  }

  lemma UnspentFalls(c: Config, runs: Runs, r: Request, id: string)
    requires AllSound(runs)
    ensures var (after, answer) := Step(c, runs, r);
            (if r.Exchange? && r.id == id && answer.Granted? then 1 else 0) + Unspent(after, id)
            <= (if Registers(c, r, id) then 1 else 0) + Unspent(runs, id)
  {}

  // ------------------------------------------------------------------ replays

  /** After a replay, until the run is registered again, it is revoked and failed and takes no result. */
  lemma ReplayIsFinal(c: Config, runs: Runs, requests: seq<Request>, id: string, i: nat, j: nat)
    requires AllSound(runs) && i < j < |requests|
    requires Replays(c, After(c, runs, requests, i), requests[i], id)
    requires OneRegistration(c, requests, id, i + 1, j)
    ensures var now := After(c, runs, requests, j);
            id in now && now[id].revoked && now[id].status == "failed" && now[id].failure == Some("bootstrap_replayed")
    ensures requests[j].Report? && requests[j].id == id ==> AnswerTo(c, runs, requests, j) == Status(401)
    ensures requests[j].Exchange? && requests[j].id == id ==>
              AnswerTo(c, runs, requests, j) in {Status(401), Status(409)}
  {
    AlwaysSound(c, runs, requests, i);
    AlwaysOnward(c, runs, requests, id, i + 1, j);
    AlwaysSound(c, runs, requests, j);
  }

  /** Any second exchange with the right code is a replay. */
  lemma SecondExchangeReplays(c: Config, runs: Runs, requests: seq<Request>, id: string, i: nat, j: nat)
    requires AllSound(runs) && i < j < |requests|
    requires Consumes(c, After(c, runs, requests, i), requests[i], id)
    requires OneRegistration(c, requests, id, i + 1, j)
    requires requests[j].Exchange? && requests[j].id == id && c.hash(requests[j].code) == c.hash(requests[i].code)
    ensures Replays(c, After(c, runs, requests, j), requests[j], id)
  {
    AlwaysSound(c, runs, requests, i);
    AlwaysOnward(c, runs, requests, id, i + 1, j);
  }

  /** A result is only taken with the token that a consumption under the same registration drew, and not after a
      replay. */
  lemma {:induction false} ResultsComeFromGrants(c: Config, requests: seq<Request>, j: nat)
    requires j < |requests| && requests[j].Report? && AnswerTo(c, map[], requests, j) == Status(204)
    ensures exists i :: 0 <= i < j && Consumes(c, After(c, map[], requests, i), requests[i], requests[j].id)
                        && requests[i].random == requests[j].presented
                        && OneRegistration(c, requests, requests[j].id, i + 1, j)
    ensures !After(c, map[], requests, j)[requests[j].id].revoked
  {
    TokensComeFromGrants(c, requests, requests[j].id, j);
  }

  lemma TokenWasThere(c: Config, runs: Runs, r: Request, id: string)
    requires !Consumes(c, runs, r, id) && id in Step(c, runs, r).0 && Step(c, runs, r).0[id].token.Some?
    ensures !Registers(c, r, id) && id in runs && runs[id].token == Step(c, runs, r).0[id].token
  {}

  lemma {:induction false} TokensComeFromGrants(c: Config, requests: seq<Request>, id: string, n: nat)
    requires n <= |requests| && id in After(c, map[], requests, n) && After(c, map[], requests, n)[id].token.Some?
    ensures exists i :: 0 <= i < n && Consumes(c, After(c, map[], requests, i), requests[i], id)
                        && requests[i].random == After(c, map[], requests, n)[id].token.value
                        && OneRegistration(c, requests, id, i + 1, n)
  {
    hide Step, Judge, Registers;
    var before, r := After(c, map[], requests, n - 1), requests[n - 1];
    if Consumes(c, before, r, id) {
      ConsumedIsSpent(c, before, r, id);
    } else {
      TokenWasThere(c, before, r, id);
      TokensComeFromGrants(c, requests, id, n - 1);
    }
  }

  // ------------------------------------------------------------------ what is shown

  /** Apart from their codes and tokens, the same runs. */
  predicate SameButSecret(a: Runs, b: Runs) {
    a.Keys == b.Keys && forall id :: id in a ==> ViewOf(a[id]) == ViewOf(b[id])
  }

  /** Looking at runs tells nothing of their codes and tokens. */
  lemma LooksHideSecrets(c: Config, a: Runs, b: Runs, r: Request)
    requires SameButSecret(a, b) && r.Look?
    ensures Step(c, a, r).1 == Step(c, b, r).1
  {}
}
