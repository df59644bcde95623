// What the event bus promises, on values: topics, bounded buffers, replay after an identifier, and one reader's
// stream through every interleaving of publications and reads.
module EventStreams {
  import opened Wrappers

  datatype Event = Event(id: string, projectSlug: Option<string>, subject: Option<string>, runId: Option<string>)

  /** Python's truth of an optional string. */
  predicate Given(o: Option<string>) {
    o.Some? && o.value != ""
  }

  predicate Distinct<T(==)>(s: seq<T>) {
    forall i, j :: 0 <= i < j < |s| ==> s[i] != s[j]
  }

  /** The topics an event is published on, each once: their first letters differ. */
  function Topics(e: Event): (topics: seq<string>)
    ensures Distinct(topics)
  {
    var project := if Given(e.projectSlug) then ["project:" + e.projectSlug.value] else [];
    var subject := if Given(e.subject) then ["subject:" + e.subject.value] else [];
    var run := if Given(e.runId) then ["run:" + e.runId.value] else [];
    assert project != [] ==> project[0][0] == 'p';
    assert subject != [] ==> subject[0][0] == 's';
    assert run != [] ==> run[0][0] == 'r';
    ["*"] + project + subject + run
  }

  /** The events of a history on a topic, in publication order. */
  function On(topic: string, history: seq<Event>): (events: seq<Event>)
  {
    if history == [] then []
    else var last := history[|history| - 1];
      On(topic, history[..|history| - 1]) + if topic in Topics(last) then [last] else []
  }

  lemma {:induction false} OnConcat(topic: string, a: seq<Event>, b: seq<Event>)
    ensures On(topic, a + b) == On(topic, a) + On(topic, b)
  {
    if b == [] {
      assert a + b == a;
    } else {
      assert (a + b)[..|a + b| - 1] == a + b[..|b| - 1];
      OnConcat(topic, a, b[..|b| - 1]);
    }
  }

  lemma OnSnoc(topic: string, history: seq<Event>, e: Event)
    ensures On(topic, history + [e]) == if topic in Topics(e) then On(topic, history) + [e] else On(topic, history)
  {
    assert (history + [e])[..|history|] == history;
  }

  // ------------------------------------------------------------------ which events are on a topic

  /** What an event's fields say of a topic: `*` takes all, the others take what has that project, subject or run. */
  predicate Concerns(topic: string, e: Event) {
    || topic == "*"
    || (e.projectSlug.Some? && e.projectSlug.value != "" && topic == "project:" + e.projectSlug.value)
    || (e.subject.Some? && e.subject.value != "" && topic == "subject:" + e.subject.value)
    || (e.runId.Some? && e.runId.value != "" && topic == "run:" + e.runId.value)
  }

  /** An event is published on the topics that its fields name, and on no other. */
  lemma TopicsAreThose(topic: string, e: Event)
    ensures topic in Topics(e) <==> Concerns(topic, e)
  {
    var topics := Topics(e);
    if topic == "*" { assert topics[0] == topic; }
    if topic in topics {
      var i :| 0 <= i < |topics| && topics[i] == topic;
    }
  }

  /** The events of a history that a test picks, in order. */
  function Filtered(history: seq<Event>, test: Event -> bool): seq<Event> {
    if history == [] then []
    else
      var last := history[|history| - 1];
      Filtered(history[..|history| - 1], test) + if test(last) then [last] else []
  }

  lemma {:induction false} OnFiltered(topic: string, history: seq<Event>, test: Event -> bool)
    requires forall e :: Concerns(topic, e) <==> test(e)
    ensures On(topic, history) == Filtered(history, test)
  {
    if history != [] {
      hide Topics, Concerns;
      OnFiltered(topic, history[..|history| - 1], test);
      TopicsAreThose(topic, history[|history| - 1]);
    }
  }

  lemma {:induction false} OnEvery(topic: string, history: seq<Event>)
    requires forall e :: topic in Topics(e)
    ensures On(topic, history) == history
  {
    if history != [] {
      hide Topics;
      var front, last := history[..|history| - 1], history[|history| - 1];
      OnEvery(topic, front);
      assert topic in Topics(last);
      assert history == front + [last];
    }
  }

  /** Everything is on `*`. */
  lemma OnAll(history: seq<Event>)
    ensures On("*", history) == history
  {
    forall e ensures "*" in Topics(e) { TopicsAreThose("*", e); }
    hide Topics, On;
    OnEvery("*", history);
  }

  lemma Named(kind: string, a: string, b: string)
    ensures kind + a == kind + b <==> a == b
  {
    assert (kind + a)[|kind|..] == a && (kind + b)[|kind|..] == b;
  }

  /** A run's topic has the events of that run, in order. */
  lemma OnRun(run: string, history: seq<Event>)
    requires run != ""
    ensures On("run:" + run, history) == Filtered(history, (e: Event) => e.runId == Some(run))
  {
    forall e ensures Concerns("run:" + run, e) <==> e.runId == Some(run) {
      assert ("run:" + run)[0] == 'r';
      if e.runId.Some? { Named("run:", e.runId.value, run); }
    }
    OnFiltered("run:" + run, history, (e: Event) => e.runId == Some(run));
  }

  lemma OnProject(project: string, history: seq<Event>)
    requires project != ""
    ensures On("project:" + project, history) == Filtered(history, (e: Event) => e.projectSlug == Some(project))
  {
    forall e ensures Concerns("project:" + project, e) <==> e.projectSlug == Some(project) {
      assert ("project:" + project)[0] == 'p';
      if e.projectSlug.Some? { Named("project:", e.projectSlug.value, project); }
    }
    OnFiltered("project:" + project, history, (e: Event) => e.projectSlug == Some(project));
  }

  lemma OnSubject(subject: string, history: seq<Event>)
    requires subject != ""
    ensures On("subject:" + subject, history) == Filtered(history, (e: Event) => e.subject == Some(subject))
  {
    forall e ensures Concerns("subject:" + subject, e) <==> e.subject == Some(subject) {
      assert ("subject:" + subject)[0] == 's';
      if e.subject.Some? { Named("subject:", e.subject.value, subject); }
    }
    OnFiltered("subject:" + subject, history, (e: Event) => e.subject == Some(subject));
  }

  /** An empty name is no name: nothing is ever on its topic. */
  lemma {:induction false} NothingOnEmpty(topic: string, history: seq<Event>)
    requires topic == "run:" || topic == "project:" || topic == "subject:"
    ensures On(topic, history) == []
  {
    if history != [] {
      var e := history[|history| - 1];
      NothingOnEmpty(topic, history[..|history| - 1]);
      TopicsAreThose(topic, e);
      NoEmptyName(topic, e);
    }
  }

  lemma NoEmptyName(topic: string, e: Event)
    requires topic == "run:" || topic == "project:" || topic == "subject:"
    ensures !Concerns(topic, e)
  {
    assert topic[0] in ['r', 'p', 's'] && "*"[0] == '*';
    assert forall name: string :: name != "" ==> |"run:" + name| > 4 && ("run:" + name)[0] == 'r';
    assert forall name: string :: name != "" ==> |"project:" + name| > 8 && ("project:" + name)[0] == 'p';
    assert forall name: string :: name != "" ==> |"subject:" + name| > 8 && ("subject:" + name)[0] == 's';
  }

  // ------------------------------------------------------------------ bounded buffers

  function LastN<T>(s: seq<T>, n: nat): seq<T> {
    if |s| <= n then s else s[|s| - n..]
  }

  /** A deque of at most `n` elements. */
  function Push<T>(buffer: seq<T>, n: nat, x: T): seq<T> {
    LastN(buffer + [x], n)
  }

  /** The end of a sequence, and no more of it than fits. */
  lemma LastNIsTheEnd<T>(s: seq<T>, n: nat)
    ensures |LastN(s, n)| == (if |s| < n then |s| else n) && s[|s| - |LastN(s, n)|..] == LastN(s, n)
  {}

  /** Evicting as one goes keeps the last `n` of everything. */
  lemma PushLastN<T>(s: seq<T>, n: nat, x: T)
    ensures Push(LastN(s, n), n, x) == LastN(s + [x], n)
  {}

  // ------------------------------------------------------------------ replay

  /** The index of the first event with this identifier. */
  function IndexOf(events: seq<Event>, id: string): (i: Option<nat>)
    ensures i.Some? ==> i.value < |events| && events[i.value].id == id
                        && forall j :: 0 <= j < i.value ==> events[j].id != id
    ensures i.None? ==> forall j :: 0 <= j < |events| ==> events[j].id != id
  {
    if events == [] then None
    else if events[0].id == id then Some(0)
    else match IndexOf(events[1..], id)
      case None => None
      case Some(i) => Some(i + 1)
  }

  /** The buffered events after `after`; all of them when it is absent or unknown. */
  function Replay(buffer: seq<Event>, after: Option<string>): seq<Event> {
    match after
    case None => buffer
    case Some(id) =>
      match IndexOf(buffer, id)
      case None => buffer
      case Some(i) => buffer[i + 1..]
  }

  predicate DistinctIds(events: seq<Event>) {
    forall i, j :: 0 <= i < j < |events| ==> events[i].id != events[j].id
  }

  /** Without an identifier, or with one that is not buffered, the whole buffer is replayed. */
  lemma ReplayAll(buffer: seq<Event>, after: Option<string>)
    requires after.None? || forall i :: 0 <= i < |buffer| ==> buffer[i].id != after.value
    ensures Replay(buffer, after) == buffer
  {}

  /** Resumption refines the full history: whether event `k` was evicted or not, replaying after it gives what was
      published after it, up to the buffer's size. */
  lemma ReplayAfter(events: seq<Event>, n: nat, k: nat)
    requires DistinctIds(events) && k < |events|
    ensures Replay(LastN(events, n), Some(events[k].id)) == LastN(events[k + 1..], n)
  {
    var buffer := LastN(events, n);
    var gone := |events| - |buffer|;
    assert buffer == events[gone..];
    var found := IndexOf(buffer, events[k].id);
    if k < gone {
      assert forall j :: 0 <= j < |buffer| ==> buffer[j] == events[gone + j];
      assert events[k + 1..][|events[k + 1..]| - n..] == events[gone..];
    } else {
      assert buffer[k - gone] == events[k];
      assert events[gone + found.value] == buffer[found.value];
      assert gone + found.value == k;
      assert buffer[k - gone + 1..] == events[k + 1..];
    }
  }

  // ------------------------------------------------------------------ one reader

  /** A subscription: what is left to replay, its queue, and what it has yielded. */
  datatype Reader = Reader(topic: string, pending: seq<Event>, queue: seq<Event>, delivered: seq<Event>)

  datatype Action = Publish(e: Event) | Read

  predicate Full(capacity: int, queue: seq<Event>) {
    0 < capacity <= |queue|
  }

  /** `put_nowait` with the overflow suppressed; a capacity of 0 or less is no bound. */
  function Offer(queue: seq<Event>, capacity: int, e: Event): seq<Event> {
    if Full(capacity, queue) then queue else queue + [e]
  }

  function Step(capacity: int, r: Reader, a: Action): Reader {
    match a
    case Publish(e) => if r.topic in Topics(e) then r.(queue := Offer(r.queue, capacity, e)) else r
    case Read =>
      if r.pending != [] then r.(pending := r.pending[1..], delivered := r.delivered + [r.pending[0]])
      else if r.queue != [] then r.(queue := r.queue[1..], delivered := r.delivered + [r.queue[0]])
      else r
  }

  /** A publication that concerns the reader is queued exactly when the queue is unbounded or has room. */
  lemma PublicationIsQueued(capacity: int, r: Reader, e: Event)
    ensures Step(capacity, r, Publish(e)) ==
              if Concerns(r.topic, e) && (capacity <= 0 || |r.queue| < capacity) then r.(queue := r.queue + [e]) else r
  {
    TopicsAreThose(r.topic, e);
    hide Topics, Concerns;
  }

  /** A queue never holds more than its size. */
  lemma {:induction false} QueueIsBounded(capacity: int, r: Reader, actions: seq<Action>)
    requires 0 < capacity && |r.queue| <= capacity
    ensures |Run(capacity, r, actions).queue| <= capacity
  {
    if actions != [] { QueueIsBounded(capacity, r, actions[..|actions| - 1]); }
  }

  function Run(capacity: int, r: Reader, actions: seq<Action>): Reader {
    if actions == [] then r
    else Step(capacity, Run(capacity, r, actions[..|actions| - 1]), actions[|actions| - 1])
  }

  function Published(actions: seq<Action>): seq<Event> {
    if actions == [] then []
    else
      Published(actions[..|actions| - 1]) + (match actions[|actions| - 1] case Publish(e) => [e] case Read => [])
  }

  /** A reader that starts now: the buffer is replayed, and the queue is registered in the same step. */
  function Open(topic: string, n: nat, history: seq<Event>, after: Option<string>): Reader {
    Reader(topic, Replay(LastN(On(topic, history), n), after), [], [])
  }

  /** All that the reader has had or will have without another publication, in order. */
  function Stream(r: Reader): seq<Event> {
    r.delivered + r.pending + r.queue
  }

  /** The events of its topic that met a full queue. */
  function Dropped(capacity: int, r: Reader, actions: seq<Action>): nat {
    if actions == [] then 0
    else var before := actions[..|actions| - 1];
      Dropped(capacity, r, before) +
      match actions[|actions| - 1]
      case Publish(e) => if r.topic in Topics(e) && Full(capacity, Run(capacity, r, before).queue) then 1 else 0
      case Read => 0
  }

  /** `a` is `b` with some elements left out. */
  predicate Subsequence<T(==)>(a: seq<T>, b: seq<T>)
    decreases |b|
  {
    if a == [] then true
    else if b == [] then false
    else || (a[|a| - 1] == b[|b| - 1] && Subsequence(a[..|a| - 1], b[..|b| - 1]))
         || Subsequence(a, b[..|b| - 1])
  }

  lemma SubsequenceSnoc<T>(a: seq<T>, b: seq<T>, x: T)
    requires Subsequence(a, b)
    ensures Subsequence(a, b + [x]) && Subsequence(a + [x], b + [x])
  {
    assert (b + [x])[..|b|] == b && (a + [x])[..|a|] == a;
  }

  lemma {:induction false} SubsequenceLength<T>(a: seq<T>, b: seq<T>)
    requires Subsequence(a, b)
    ensures |a| <= |b| && (|a| == |b| ==> a == b)
    decreases |b|
  {
    if a != [] {
      if a[|a| - 1] == b[|b| - 1] && Subsequence(a[..|a| - 1], b[..|b| - 1]) {
        SubsequenceLength(a[..|a| - 1], b[..|b| - 1]);
        assert a == a[..|a| - 1] + [a[|a| - 1]] && b == b[..|b| - 1] + [b[|b| - 1]];
      } else {
        SubsequenceLength(a, b[..|b| - 1]);
      }
    }
  }

  /** What was queued, not dropped. */
  function Kept(capacity: int, r: Reader, actions: seq<Action>): seq<Event> {
    if actions == [] then []
    else var before := actions[..|actions| - 1];
      Kept(capacity, r, before) + KeptNow(capacity, Run(capacity, r, before), actions[|actions| - 1])
  }

  function KeptNow(capacity: int, r: Reader, a: Action): seq<Event> {
    if a.Publish? && r.topic in Topics(a.e) && !Full(capacity, r.queue) then [a.e] else []
  }

  lemma StepStream(capacity: int, r: Reader, a: Action)
    ensures Stream(Step(capacity, r, a)) == Stream(r) + KeptNow(capacity, r, a)
    ensures r.delivered <= Step(capacity, r, a).delivered && Step(capacity, r, a).topic == r.topic
  {}

  /** In every interleaving the replay comes whole and first, then what was kept of the events published since. */
  lemma {:induction false} StreamOf(capacity: int, r: Reader, actions: seq<Action>)
    ensures Stream(Run(capacity, r, actions)) == Stream(r) + Kept(capacity, r, actions)
    ensures Run(capacity, r, actions).topic == r.topic && r.delivered <= Run(capacity, r, actions).delivered
  {
    if actions == [] {
      assert Stream(r) + [] == Stream(r);
    } else {
      var before, last := actions[..|actions| - 1], actions[|actions| - 1];
      StreamOf(capacity, r, before);
      StepStream(capacity, Run(capacity, r, before), last);
      var kept, now := Kept(capacity, r, before), KeptNow(capacity, Run(capacity, r, before), last);
      assert Stream(r) + (kept + now) == Stream(r) + kept + now;
    }
  }

  lemma OnOne(topic: string, e: Event)
    ensures On(topic, [e]) == if topic in Topics(e) then [e] else []
  {
    assert [e][..0] == [] && On(topic, []) == [];
  }

  lemma PublishedOn(topic: string, actions: seq<Action>)
    requires actions != []
    ensures On(topic, Published(actions)) ==
            On(topic, Published(actions[..|actions| - 1])) +
            (match actions[|actions| - 1] case Publish(e) => On(topic, [e]) case Read => [])
  {
    if actions[|actions| - 1].Publish? {
      OnConcat(topic, Published(actions[..|actions| - 1]), [actions[|actions| - 1].e]);
    } else {
      assert Published(actions) == Published(actions[..|actions| - 1]);
    }
  }

  /** What was kept is the topic's publications in order, less exactly those that met a full queue. */
  lemma {:induction false} KeptInOrder(capacity: int, r: Reader, actions: seq<Action>)
    ensures Subsequence(Kept(capacity, r, actions), On(r.topic, Published(actions)))
    ensures |Kept(capacity, r, actions)| + Dropped(capacity, r, actions) == |On(r.topic, Published(actions))|
  {
    if actions != [] {
      hide Topics, Run, Step, Stream, Subsequence, On, Published, KeptNow;
      var before, last := actions[..|actions| - 1], actions[|actions| - 1];
      var kept, on := Kept(capacity, r, before), On(r.topic, Published(before));
      KeptInOrder(capacity, r, before);
      StreamOf(capacity, r, before);
      PublishedOn(r.topic, actions);
      OneKept(capacity, Run(capacity, r, before), last, kept, on);
    }
  }

  /** One action keeps the order, and what is not kept of it is dropped. */
  lemma OneKept(capacity: int, r: Reader, a: Action, kept: seq<Event>, on: seq<Event>)
    requires Subsequence(kept, on)
    ensures var next := match a case Publish(e) => On(r.topic, [e]) case Read => [];
            var dropped := if a.Publish? && r.topic in Topics(a.e) && Full(capacity, r.queue) then 1 else 0;
            && Subsequence(kept + KeptNow(capacity, r, a), on + next)
            && |KeptNow(capacity, r, a)| + dropped == |next|
  {
    hide Topics, Subsequence, On;
    assert kept + [] == kept && on + [] == on;
    if a.Publish? {
      OnOne(r.topic, a.e);
      SubsequenceSnoc(kept, on, a.e);
    }
  }

  /** A subscription is gapless and free of duplicates exactly when its queue never overflows. */
  lemma StreamIsComplete(capacity: int, r: Reader, actions: seq<Action>)
    ensures Stream(Run(capacity, r, actions)) == Stream(r) + On(r.topic, Published(actions)) <==>
              Dropped(capacity, r, actions) == 0
  {
    StreamOf(capacity, r, actions);
    KeptInOrder(capacity, r, actions);
    SubsequenceLength(Kept(capacity, r, actions), On(r.topic, Published(actions)));
  }

  // ------------------------------------------------------------------ reconnecting on the last identifier received

  /** Events published while the client is away, then what happens while it is connected. */
  datatype Session = Session(away: seq<Event>, actions: seq<Action>)

  function LastId(received: seq<Event>): Option<string> {
    if received == [] then None else Some(received[|received| - 1].id)
  }

  /** A reader that reconnects after `s.away`, on the last identifier received. */
  function Reopened(topic: string, n: nat, history: seq<Event>, received: seq<Event>, s: Session): Reader {
    Open(topic, n, history + s.away, LastId(received))
  }

  /** What a client holds after one more session on a bus whose history was `history`. */
  function Resume(topic: string, n: nat, capacity: int, history: seq<Event>, received: seq<Event>,
                  s: Session): seq<Event>
  {
    received + Run(capacity, Reopened(topic, n, history, received, s), s.actions).delivered
  }

  function Later(history: seq<Event>, s: Session): seq<Event> {
    history + s.away + Published(s.actions)
  }

  /** What a client holds after a chain of sessions, and the history then. */
  function Chain(topic: string, n: nat, capacity: int, history: seq<Event>, received: seq<Event>,
                 sessions: seq<Session>)
    : (seq<Event>, seq<Event>)
    decreases |sessions|
  {
    if sessions == [] then (received, history)
    else Chain(topic, n, capacity, Later(history, sessions[0]),
               Resume(topic, n, capacity, history, received, sessions[0]), sessions[1..])
  }

  /** Where in the topic's history `events` a reader that opens now starts, when the client holds all up to `p`. */
  function Start(events: seq<Event>, n: nat, p: nat): nat {
    if p < |events| - n then |events| - n else p
  }

  lemma LastFrom(known: seq<Event>, n: nat, p: nat)
    requires p <= |known|
    ensures LastN(known[p..], n) == known[Start(known, n, p)..]
  {}

  lemma OpenAt(topic: string, n: nat, history: seq<Event>, received: seq<Event>, p: nat)
    requires DistinctIds(On(topic, history)) && p <= |On(topic, history)|
    requires if received == [] then p == 0 else p > 0 && received[|received| - 1] == On(topic, history)[p - 1]
    ensures Stream(Open(topic, n, history, LastId(received))) == On(topic, history)[Start(On(topic, history), n, p)..]
  {
    var known := On(topic, history);
    var pending := Open(topic, n, history, LastId(received)).pending;
    assert [] + pending + [] == pending;
    if received != [] {
      ReplayAfter(known, n, p - 1);
      assert known[p - 1 + 1..] == known[p..];
      LastFrom(known, n, p);
    }
  }

  lemma LaterOn(topic: string, history: seq<Event>, s: Session)
    ensures On(topic, history) <= On(topic, history + s.away) <= On(topic, Later(history, s))
    ensures On(topic, Later(history, s)) == On(topic, history + s.away) + On(topic, Published(s.actions))
  {
    OnConcat(topic, history, s.away);
    OnConcat(topic, history + s.away, Published(s.actions));
  }

  /** One reconnection, exactly: the client held everything on the topic up to `p`; the session delivers a segment
      that starts at `p`, or later by what more than `n` missed events evicted. */
  lemma {:induction false} ResumeSegment(topic: string, n: nat, capacity: int, history: seq<Event>,
                                         received: seq<Event>,
                                         s: Session, p: nat)
    requires DistinctIds(On(topic, Later(history, s))) && p <= |On(topic, history)|
    requires if received == [] then p == 0 else p > 0 && received[|received| - 1] == On(topic, history)[p - 1]
    requires Dropped(capacity, Reopened(topic, n, history, received, s), s.actions) == 0
    ensures Adds(On(topic, Later(history, s)), received, Resume(topic, n, capacity, history, received, s),
                 Start(On(topic, history + s.away), n, p))
  {
    hide Topics, Run, Dropped, On, Published, Replay, LastN;
    LaterOn(topic, history, s);
    var known := On(topic, history + s.away);
    assert DistinctIds(known) by { DistinctPrefix(known, On(topic, Later(history, s))); }
    OpenAt(topic, n, history + s.away, received, p);
    SessionStream(topic, capacity, Reopened(topic, n, history, received, s), known, s.actions, Start(known, n, p));
  }

  lemma DistinctPrefix(a: seq<Event>, b: seq<Event>)
    requires a <= b && DistinctIds(b)
    ensures DistinctIds(a)
  {
    assert forall i :: 0 <= i < |a| ==> a[i] == b[i];
  }

  /** With nothing dropped, what a reader has delivered runs on from where its stream began. */
  lemma SessionStream(topic: string, capacity: int, r: Reader, known: seq<Event>, actions: seq<Action>, from: nat)
    requires r.topic == topic && r.delivered == [] && from <= |known| && Stream(r) == known[from..]
    requires Dropped(capacity, r, actions) == 0
    ensures var events, delivered := known + On(topic, Published(actions)), Run(capacity, r, actions).delivered;
            from + |delivered| <= |events| && delivered == events[from..from + |delivered|]
  {
    hide Topics, Run, On, Published, Dropped;
    var events := known + On(topic, Published(actions));
    StreamIsComplete(capacity, r, actions);
    var last := Run(capacity, r, actions);
    assert Stream(last) == events[from..];
    assert Stream(last) == last.delivered + (last.pending + last.queue);
    PrefixOfSuffix(last.delivered, last.pending + last.queue, events, from);
  }

  lemma PrefixOfSuffix(a: seq<Event>, b: seq<Event>, events: seq<Event>, from: nat)
    requires from <= |events| && a + b == events[from..]
    ensures from + |a| <= |events| && a == events[from..from + |a|]
  {
    assert a == (a + b)[..|a|];
  }

  /** `resumed` is `received` followed by the events from `from` on, as many as it takes. */
  predicate Adds(events: seq<Event>, received: seq<Event>, resumed: seq<Event>, from: nat) {
    && 0 <= |resumed| - |received| <= |events| - from
    && resumed == received + events[from..from + |resumed| - |received|]
  }

  /** How far into the topic's history the client is once it holds `resumed`: still at `p` if the session brought
      nothing. */
  function Position(received: seq<Event>, resumed: seq<Event>, p: nat, from: nat): nat {
    if |resumed| <= |received| then p else from + |resumed| - |received|
  }

  /** No session of the chain overflows its queue. */
  predicate NoDrops(topic: string, n: nat, capacity: int, history: seq<Event>, received: seq<Event>,
                    sessions: seq<Session>)
    decreases |sessions|
  {
    sessions == [] ||
    var s := sessions[0];
    && Dropped(capacity, Reopened(topic, n, history, received, s), s.actions) == 0
    && NoDrops(topic, n, capacity, Later(history, s), Resume(topic, n, capacity, history, received, s), sessions[1..])
  }

  /** More than `n` events were missed, and the session brings some of those after. */
  predicate Late(topic: string, n: nat, capacity: int, history: seq<Event>, received: seq<Event>, s: Session, p: nat) {
    && received != [] && |Resume(topic, n, capacity, history, received, s)| > |received|
    && |On(topic, history + s.away)| > p + n
  }

  predicate OnTime(topic: string, n: nat, capacity: int, history: seq<Event>, received: seq<Event>,
                   sessions: seq<Session>, p: nat)
    decreases |sessions|
  {
    sessions == [] ||
    var s := sessions[0];
    var resumed := Resume(topic, n, capacity, history, received, s);
    && !Late(topic, n, capacity, history, received, s, p)
    && OnTime(topic, n, capacity, Later(history, s), resumed, sessions[1..],
              Position(received, resumed, p, Start(On(topic, history + s.away), n, p)))
  }

  /** `received` is the segment of the topic's history from `start` up to `p`. */
  predicate Segment(events: seq<Event>, received: seq<Event>, start: int, p: int) {
    if received == [] then start == p == 0 else 0 <= start <= p <= |events| && received == events[start..p]
  }

  /** What is received has no gap and no duplicate. */
  ghost predicate Contiguous(events: seq<Event>, received: seq<Event>) {
    exists start, p :: Segment(events, received, start, p)
  }

  lemma SegmentEnds(events: seq<Event>, received: seq<Event>, start: int, p: int)
    requires Segment(events, received, start, p)
    ensures 0 <= p <= |events|
    ensures if received == [] then p == 0 else p > 0 && received[|received| - 1] == events[p - 1]
  {}

  lemma Adjoin(events: seq<Event>, before: seq<Event>, received: seq<Event>, resumed: seq<Event>, start: int, p: nat,
               from: nat) returns (first: int)
    requires Segment(before, received, start, p) && before <= events && Adds(events, received, resumed, from)
    requires received != [] && |resumed| > |received| ==> from == p
    ensures Segment(events, resumed, first, Position(received, resumed, p, from))
  {
    first := if received == [] && resumed != [] then from else start;
    if received != [] {
      assert received == events[start..p];
      if |resumed| > |received| {
        assert events[start..p] + events[p..p + |resumed| - |received|] == events[start..p + |resumed| - |received|];
      } else {
        assert received + events[from..from] == received;
      }
    }
  }

  lemma {:induction false} LaterHistoryExtends(topic: string, n: nat, capacity: int, history: seq<Event>,
                                               received: seq<Event>, sessions: seq<Session>)
    ensures var (held, after) := Chain(topic, n, capacity, history, received, sessions);
            On(topic, history) <= On(topic, after) && received <= held
    decreases |sessions|
  {
    if sessions != [] {
      var s := sessions[0];
      LaterOn(topic, history, s);
      LaterHistoryExtends(topic, n, capacity, Later(history, s),
                          Resume(topic, n, capacity, history, received, s), sessions[1..]);
    }
  }

  lemma Neighbours(events: seq<Event>, held: seq<Event>, i: nat, a: nat, b: nat)
    requires DistinctIds(events) && a < |events| && b < |events| && Contiguous(events, held)
    requires i + 1 < |held| && held[i] == events[a] && held[i + 1] == events[b]
    ensures b == a + 1
  {
    var start, p :| Segment(events, held, start, p);
    assert held[i] == events[start + i] && held[i + 1] == events[start + i + 1];
  }

  /** Two neighbours in what is received that are not neighbours in the history: a gap that stays. */
  lemma GapStays(events: seq<Event>, held: seq<Event>, i: nat, a: nat, b: nat)
    requires DistinctIds(events) && a < |events| && b < |events| && b != a + 1
    requires i + 1 < |held| && held[i] == events[a] && held[i + 1] == events[b]
    ensures !Contiguous(events, held)
  {
    if Contiguous(events, held) { Neighbours(events, held, i, a, b); }
  }

  /** A late session leaves a gap in whatever is held in the end. */
  lemma LateLeavesGap(topic: string, n: nat, capacity: int, history: seq<Event>, received: seq<Event>, s: Session,
                      p: nat, events: seq<Event>, held: seq<Event>)
    requires DistinctIds(events) && On(topic, Later(history, s)) <= events
    requires Resume(topic, n, capacity, history, received, s) <= held
    requires Late(topic, n, capacity, history, received, s, p)
    requires 0 < p <= |On(topic, history)| && received[|received| - 1] == On(topic, history)[p - 1]
    requires Adds(On(topic, Later(history, s)), received, Resume(topic, n, capacity, history, received, s),
                  Start(On(topic, history + s.away), n, p))
    ensures !Contiguous(events, held)
  {
    hide Topics, Run, Open, On, Resume, Later, Reopened, Contiguous, DistinctIds;
    LaterOn(topic, history, s);
    var resumed, from := Resume(topic, n, capacity, history, received, s), Start(On(topic, history + s.away), n, p);
    var later := On(topic, Later(history, s));
    assert resumed[|received|] == later[from] == events[from] && resumed[|received| - 1] == received[|received| - 1];
    assert On(topic, history)[p - 1] == later[p - 1] == events[p - 1];
    GapStays(events, held, |received| - 1, p - 1, from);
  }

  /** Chained reconnections without drops give one contiguous segment of the topic's history exactly when no session
      brings anything after more than a buffer's worth of events was missed. */
  lemma {:induction false} ChainIsContiguous(topic: string, n: nat, capacity: int, history: seq<Event>,
                                             received: seq<Event>, sessions: seq<Session>, start: int, p: nat)
    requires Segment(On(topic, history), received, start, p)
    requires NoDrops(topic, n, capacity, history, received, sessions)
    requires DistinctIds(On(topic, Chain(topic, n, capacity, history, received, sessions).1))
    ensures var (held, after) := Chain(topic, n, capacity, history, received, sessions);
            Contiguous(On(topic, after), held) <==> OnTime(topic, n, capacity, history, received, sessions, p)
    decreases |sessions|
  {
    if sessions != [] {
      hide Topics, Run, Open, Dropped, On, Resume, Later, Reopened, Segment, Adds, DistinctIds, Contiguous, Late;
      var s, rest := sessions[0], sessions[1..];
      var later, resumed := Later(history, s), Resume(topic, n, capacity, history, received, s);
      var (held, after) := Chain(topic, n, capacity, later, resumed, rest);
      var from := Start(On(topic, history + s.away), n, p);
      LaterHistoryExtends(topic, n, capacity, later, resumed, rest);
      LaterOn(topic, history, s);
      SegmentEnds(On(topic, history), received, start, p);
      DistinctPrefix(On(topic, later), On(topic, after));
      ResumeSegment(topic, n, capacity, history, received, s, p);
      if Late(topic, n, capacity, history, received, s, p) {
        LateHolds(topic, n, capacity, history, received, s, p);
        LateLeavesGap(topic, n, capacity, history, received, s, p, On(topic, after), held);
      } else {
        NotLate(topic, n, capacity, history, received, s, p);
        var first := Adjoin(On(topic, later), On(topic, history), received, resumed, start, p, from);
        ChainIsContiguous(topic, n, capacity, later, resumed, rest, first, Position(received, resumed, p, from));
      }
    } else {
      assert Contiguous(On(topic, history), received);
    }
  }

  lemma LateHolds(topic: string, n: nat, capacity: int, history: seq<Event>, received: seq<Event>, s: Session, p: nat)
    requires Late(topic, n, capacity, history, received, s, p)
    ensures received != []
  {}

  lemma NotLate(topic: string, n: nat, capacity: int, history: seq<Event>, received: seq<Event>, s: Session, p: nat)
    requires !Late(topic, n, capacity, history, received, s, p)
    ensures received != [] && |Resume(topic, n, capacity, history, received, s)| > |received| ==>
              Start(On(topic, history + s.away), n, p) == p
  {}
}
