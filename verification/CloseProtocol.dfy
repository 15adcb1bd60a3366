/**
 * The close of a fiscal period as a protocol: any number of closers, aborts, locks and
 * reopens, interleaved between a closer's read, its claim, its post and its finish. Posting
 * and each status move are single steps; reopen stamps strictly increase.
 *
 * A closing entry is keyed by the reopen stamp the closer READ, before it claimed the period.
 * So an entry carries its own cycle's key exactly when no reopen came between the two.
 */
module CloseProtocol {
  import opened Wrappers
  import opened Text

  datatype Status = Open | Adjusting | Closing | Closed | Locked

  /** The last reopen, as it names a close cycle. */
  datatype Stamp = Initial | At(time: nat)

  /** How far one closer has come; a stopped closer is idle again and never cleans up. */
  datatype Phase = Idle | HasRead(key: Stamp) | Claimed(key: Stamp, prior: Status) | Entered | Failed(prior: Status)

  /** A posted closing entry: its idempotency key and the cycle it was posted in. */
  datatype Entry = Entry(key: Stamp, cycle: nat)

  datatype Period = Period(status: Status, stamp: Stamp, cycle: nat, entries: seq<Entry>, closers: map<nat, Phase>)

  /** What became of posting the entry: there was nothing to close, it was accepted, or refused. */
  datatype Posting = Nothing | Accepted | Refused

  datatype Event =
    | Begin(closer: nat)
    | Claim(closer: nat)
    | Post(closer: nat, posting: Posting)
    | Finish(closer: nat)
    | Abort(closer: nat)
    | Stop(closer: nat)
    | Lock
    | Reopen(now: nat)

  function PhaseOf(p: Period, c: nat): Phase {
    if c in p.closers then p.closers[c] else Idle
  }

  function Put(p: Period, c: nat, phase: Phase): Period {
    p.(closers := p.closers[c := phase])
  }

  predicate Before(a: Stamp, b: Stamp) {
    b.At? && (a.Initial? || a.time < b.time)
  }

  predicate Used(entries: seq<Entry>, key: Stamp) {
    exists i | 0 <= i < |entries| :: entries[i].key == key
  }

  /** One step. A conditional update that matches no row, or an event out of turn, changes nothing. */
  function Step(p: Period, e: Event): Period {
    match e
    case Begin(c) =>
      if PhaseOf(p, c).Idle? && (p.status.Open? || p.status.Adjusting?) then Put(p, c, HasRead(p.stamp)) else p
    case Claim(c) =>
      if !PhaseOf(p, c).HasRead? then p
      else if p.status.Open? || p.status.Adjusting? then
        Put(p.(status := Closing), c, Claimed(PhaseOf(p, c).key, p.status))
      else Put(p, c, Idle)
    case Post(c, posting) =>
      var phase := PhaseOf(p, c);
      if !phase.Claimed? then p
      else if posting.Refused? then Put(p, c, Failed(phase.prior))
      else if posting.Nothing? || Used(p.entries, phase.key) then Put(p, c, Entered)
      else Put(p.(entries := p.entries + [Entry(phase.key, p.cycle)]), c, Entered)
    case Finish(c) =>
      if PhaseOf(p, c).Entered? then
        Put(if p.status.Closing? then p.(status := Closed) else p, c, Idle)
      else p
    case Abort(c) =>
      if PhaseOf(p, c).Failed? then
        Put(if p.status.Closing? then p.(status := PhaseOf(p, c).prior) else p, c, Idle)
      else p
    case Stop(c) => Put(p, c, Idle)
    case Lock => if p.status.Closed? then p.(status := Locked) else p
    case Reopen(now) =>
      if p.status.Closed? && Before(p.stamp, At(now)) then
        p.(status := Open, stamp := At(now), cycle := p.cycle + 1)
      else p
  }

  function Run(p: Period, events: seq<Event>): Period
    decreases |events|
  {
    if events == [] then p else Run(Step(p, events[0]), events[1..])
  }

  /** A period nobody has closed yet. */
  predicate Fresh(p: Period) {
    (p.status.Open? || p.status.Adjusting?) && p.stamp.Initial? && p.cycle == 0 && p.entries == [] && p.closers == map[]
  }

  // ------------------------------------------------------------------ the invariant

  predicate Holding(phase: Phase) {
    phase.Claimed? || phase.Entered? || phase.Failed?
  }

  /** Whoever holds the claim holds it alone, on a closing period, from an open status. */
  ghost predicate OneHolder(p: Period) {
    && (forall c | c in p.closers && Holding(p.closers[c]) :: p.status.Closing?)
    && (forall c, d | c in p.closers && d in p.closers && Holding(p.closers[c]) && Holding(p.closers[d]) :: c == d)
    && (forall c | c in p.closers && p.closers[c].Claimed? :: p.closers[c].prior.Open? || p.closers[c].prior.Adjusting?)
    && (forall c | c in p.closers && p.closers[c].Failed? :: p.closers[c].prior.Open? || p.closers[c].prior.Adjusting?)
  }

  /** Nothing was posted in the running cycle before its claim has been turned into an entry. */
  ghost predicate NotYetClosed(p: Period) {
    && (p.status.Open? || p.status.Adjusting? ==> forall i | 0 <= i < |p.entries| :: p.entries[i].cycle < p.cycle)
    && forall c | c in p.closers && (p.closers[c].Claimed? || p.closers[c].Failed?) ::
      forall i | 0 <= i < |p.entries| :: p.entries[i].cycle < p.cycle
  }

  /** Entries belong to cycles in order, each to one; keys are distinct and as old as their cycle. */
  ghost predicate EntriesOk(p: Period) {
    && (forall i | 0 <= i < |p.entries| :: p.entries[i].cycle <= p.cycle)
    && (forall i, j | 0 <= i < j < |p.entries| :: p.entries[i].cycle < p.entries[j].cycle)
    && (forall i, j | 0 <= i < j < |p.entries| :: p.entries[i].key != p.entries[j].key)
    && (forall i | 0 <= i < |p.entries| :: p.entries[i].key == p.stamp || Before(p.entries[i].key, p.stamp))
    && (forall i | 0 <= i < |p.entries| && p.entries[i].cycle < p.cycle :: Before(p.entries[i].key, p.stamp))
  }

  ghost predicate KeysOk(p: Period) {
    && (forall c | c in p.closers && p.closers[c].HasRead? ::
      p.closers[c].key == p.stamp || Before(p.closers[c].key, p.stamp))
    && (forall c | c in p.closers && p.closers[c].Claimed? ::
      p.closers[c].key == p.stamp || Before(p.closers[c].key, p.stamp))
  }

  ghost predicate Sane(p: Period) {
    OneHolder(p) && NotYetClosed(p) && EntriesOk(p) && KeysOk(p)
  }

  lemma {:induction false} StepKeepsHolder(p: Period, e: Event)
    requires OneHolder(p)
    ensures OneHolder(Step(p, e))
  {
  }

  /** An unused key, no newer than the cycle, in a cycle without an entry. */
  lemma {:induction false} EntryAppends(p: Period, key: Stamp)
    requires EntriesOk(p) && !Used(p.entries, key) && (key == p.stamp || Before(key, p.stamp))
    requires forall i | 0 <= i < |p.entries| :: p.entries[i].cycle < p.cycle
    ensures EntriesOk(p.(entries := p.entries + [Entry(key, p.cycle)]))
  {
  }

  lemma {:induction false} StepKeepsEntries(p: Period, e: Event)
    requires Sane(p)
    ensures EntriesOk(Step(p, e))
  {
    if e.Post? {
      if Step(p, e).entries != p.entries {
        EntryAppends(p, PhaseOf(p, e.closer).key);
      }
    } else if e.Reopen? {
      ReopenKeepsEntries(p, e.now);
    }
  }

  lemma {:induction false} ReopenKeepsEntries(p: Period, now: nat)
    requires EntriesOk(p)
    ensures EntriesOk(Step(p, Reopen(now)))
  {
  }

  lemma {:induction false} StepKeepsKeys(p: Period, e: Event)
    requires Sane(p)
    ensures KeysOk(Step(p, e))
  {
  }

  lemma {:induction false} StepKeepsNotYet(p: Period, e: Event)
    requires Sane(p)
    ensures NotYetClosed(Step(p, e))
  {
  }

  lemma {:induction false} StepKeepsSane(p: Period, e: Event)
    requires Sane(p)
    ensures Sane(Step(p, e))
  {
    StepKeepsHolder(p, e);
    StepKeepsEntries(p, e);
    StepKeepsKeys(p, e);
    StepKeepsNotYet(p, e);
  }

  lemma {:induction false} RunKeepsSane(p: Period, events: seq<Event>)
    requires Sane(p)
    ensures Sane(Run(p, events))
    decreases |events|
  {
    if events == [] {
    } else {
      StepKeepsSane(p, events[0]);
      RunKeepsSane(Step(p, events[0]), events[1..]);
    }
  }

  // ------------------------------------------------------------------ safety over runs

  /** Under any interleaving a cycle gets at most one closing entry, and no key is used twice. */
  lemma {:induction false} OneEntryPerCycle(p: Period, events: seq<Event>, i: nat, j: nat)
    requires Fresh(p) && i < j < |Run(p, events).entries|
    ensures Run(p, events).entries[i].cycle < Run(p, events).entries[j].cycle
    ensures Run(p, events).entries[i].key != Run(p, events).entries[j].key
  {
    RunKeepsSane(p, events);
  }

  /** Nothing ever leaves locked. */
  lemma {:induction false} LockedIsFinal(p: Period, events: seq<Event>)
    requires Sane(p) && p.status.Locked?
    ensures Run(p, events).status.Locked?
    decreases |events|
  {
    if events == [] {
    } else {
      StepKeepsSane(p, events[0]);
      LockedIsFinal(Step(p, events[0]), events[1..]);
    }
  }

  /** No event but the closer's own. */
  predicate Others(events: seq<Event>, c: nat) {
    forall i | 0 <= i < |events| :: events[i].Lock? || events[i].Reopen? || events[i].closer != c
  }

  /** While one closer holds the claim, nothing anybody else does moves the period. */
  lemma {:induction false} ClaimHolds(p: Period, events: seq<Event>, c: nat)
    requires Sane(p) && c in p.closers && Holding(p.closers[c]) && Others(events, c)
    ensures var q := Run(p, events);
      q.status.Closing? && q.stamp == p.stamp && q.cycle == p.cycle && q.entries == p.entries
      && c in q.closers && q.closers[c] == p.closers[c] && Sane(q)
    decreases |events|
  {
    if events == [] {
    } else {
      StepKeepsSane(p, events[0]);
      ClaimHolds(Step(p, events[0]), events[1..], c);
    }
  }

  /**
   * Whatever happens around it, a claimed close that fails to post gives the period back in
   * exactly the status it had, with no entry added.
   */
  lemma {:induction false} AbortRestores(p: Period, between: seq<Event>, later: seq<Event>, c: nat)
    requires Sane(p) && PhaseOf(p, c).HasRead? && (p.status.Open? || p.status.Adjusting?)
    requires Others(between, c) && Others(later, c)
    ensures var q := Step(Run(Step(Run(Step(p, Claim(c)), between), Post(c, Refused)), later), Abort(c));
      q.status == p.status && q.entries == p.entries && q.stamp == p.stamp && q.cycle == p.cycle
  {
    var p1 := Step(p, Claim(c));
    StepKeepsSane(p, Claim(c));
    ClaimHolds(p1, between, c);
    RefusedGivesBack(Run(p1, between), later, c);
  }

  lemma {:induction false} RefusedGivesBack(p: Period, later: seq<Event>, c: nat)
    requires Sane(p) && c in p.closers && p.closers[c].Claimed? && Others(later, c)
    ensures var q := Step(Run(Step(p, Post(c, Refused)), later), Abort(c));
      q.status == p.closers[c].prior && q.entries == p.entries && q.stamp == p.stamp && q.cycle == p.cycle
  {
    StepKeepsSane(p, Post(c, Refused));
    ClaimHolds(Step(p, Post(c, Refused)), later, c);
  }

  /** Finishing a close whose entry was posted always finds the period still closing. */
  lemma {:induction false} FinishSucceeds(p: Period, events: seq<Event>, c: nat)
    requires Fresh(p) && PhaseOf(Run(p, events), c).Entered?
    ensures Run(p, events).status.Closing? && Step(Run(p, events), Finish(c)).status.Closed?
  {
    RunKeepsSane(p, events);
  }

  // ------------------------------------------------------------------ a close that stopped

  /** Somebody is between the claim and the end of its close. */
  ghost predicate Held(p: Period) {
    exists c | c in p.closers :: Holding(p.closers[c])
  }

  lemma {:induction false} NobodyTakesOver(p: Period, e: Event)
    requires p.status.Closing? && !Held(p)
    ensures Step(p, e).status.Closing? && !Held(Step(p, e)) && Step(p, e).entries == p.entries
  {
  }

  /** No event, by anybody, moves a closing period nobody holds. */
  lemma {:induction false} UnheldStaysClosing(p: Period, events: seq<Event>)
    requires p.status.Closing? && !Held(p)
    ensures Run(p, events).status.Closing? && Run(p, events).entries == p.entries
    decreases |events|
  {
    if events == [] {
    } else {
      NobodyTakesOver(p, events[0]);
      UnheldStaysClosing(Step(p, events[0]), events[1..]);
    }
  }

  /** A closing period stays closing for good exactly when whoever claimed it has stopped. */
  lemma {:induction false} StaysClosingIff(p: Period)
    requires Sane(p) && p.status.Closing?
    ensures (forall events: seq<Event> :: Run(p, events).status.Closing?) <==> !Held(p)
  {
    if Held(p) {
      var c :| c in p.closers && Holding(p.closers[c]);
      var events := [Post(c, Refused), Finish(c), Abort(c)];
      assert events == [Post(c, Refused)] + ([Finish(c)] + ([Abort(c)] + []));
      RunOne(p, Post(c, Refused), [Finish(c)] + ([Abort(c)] + []));
      RunOne(Step(p, Post(c, Refused)), Finish(c), [Abort(c)] + []);
      RunOne(Step(Step(p, Post(c, Refused)), Finish(c)), Abort(c), []);
      assert !Run(p, events).status.Closing?;
    } else {
      forall events: seq<Event> ensures Run(p, events).status.Closing? {
        UnheldStaysClosing(p, events);
      }
    }
  }

  /** It happens: stop once the claim is made, or once the entry is posted, and nothing ends it. */
  lemma {:induction false} StoppedCloseIsStuck(p: Period, posted: bool, later: seq<Event>)
    requires Fresh(p)
    ensures var stop := if posted then Post(1, Accepted) else Stop(1);
      var q := Run(p, [Begin(1), Claim(1), stop, Stop(1)]);
      Run(q, later).status.Closing? && Run(q, later).entries == if posted then [Entry(Initial, 0)] else []
  {
    var stop := if posted then Post(1, Accepted) else Stop(1);
    RunFour(p, Begin(1), Claim(1), stop, Stop(1));
    UnheldStaysClosing(Run(p, [Begin(1), Claim(1), stop, Stop(1)]), later);
  }

  // ------------------------------------------------------------------ which cycle's key

  lemma {:induction false} StampsGrow(p: Period, events: seq<Event>)
    ensures var q := Run(p, events);
      q.cycle >= p.cycle && (q.cycle == p.cycle ==> q.stamp == p.stamp)
      && (q.cycle > p.cycle ==> Before(p.stamp, q.stamp))
    decreases |events|
  {
    if events == [] {
    } else {
      StampsGrow(Step(p, events[0]), events[1..]);
    }
  }

  lemma {:induction false} ReadStays(p: Period, events: seq<Event>, c: nat)
    requires PhaseOf(p, c).HasRead? && Others(events, c)
    ensures PhaseOf(Run(p, events), c) == PhaseOf(p, c)
    decreases |events|
  {
    if events == [] {
    } else {
      ReadStays(Step(p, events[0]), events[1..], c);
    }
  }

  /**
   * The key a closer will post under is the running cycle's exactly when nobody reopened the
   * period between its read and its claim.
   */
  lemma {:induction false} KeyIsCurrentIff(p: Period, between: seq<Event>, c: nat)
    requires PhaseOf(p, c).Idle? && (p.status.Open? || p.status.Adjusting?) && Others(between, c)
    ensures var q := Run(Step(p, Begin(c)), between);
      var after := Step(q, Claim(c));
      PhaseOf(after, c).Claimed? ==>
        (PhaseOf(after, c).key == after.stamp <==> after.cycle == p.cycle)
  {
    var p1 := Step(p, Begin(c));
    ReadStays(p1, between, c);
    StampsGrow(p1, between);
  }

  /**
   * A close that posts under the running cycle's key finds the key unused and adds the
   * cycle's entry; and a key that is already used is always an earlier cycle's.
   */
  lemma {:induction false} CurrentKeyIsUnused(p: Period, events: seq<Event>, c: nat)
    requires Fresh(p) && PhaseOf(Run(p, events), c).Claimed?
    ensures var q := Run(p, events);
      PhaseOf(q, c).key == q.stamp ==>
        !Used(q.entries, q.stamp) && Step(q, Post(c, Accepted)).entries == q.entries + [Entry(q.stamp, q.cycle)]
    ensures var q := Run(p, events);
      Used(q.entries, PhaseOf(q, c).key) ==> Before(PhaseOf(q, c).key, q.stamp)
  {
    RunKeepsSane(p, events);
  }

  /** Some entry from position `n` on has the key. */
  predicate UsedSince(entries: seq<Entry>, n: nat, key: Stamp) {
    exists i | n <= i < |entries| :: entries[i].key == key
  }

  lemma {:induction false} EntriesOnlyGrow(p: Period, events: seq<Event>)
    ensures p.entries <= Run(p, events).entries
    decreases |events|
  {
    if events == [] {
    } else {
      EntriesOnlyGrow(Step(p, events[0]), events[1..]);
    }
  }

  /** The key an open period would be closed under has not been used. */
  lemma {:induction false} OpenKeyIsUnused(p: Period)
    requires Sane(p) && (p.status.Open? || p.status.Adjusting?)
    ensures !Used(p.entries, p.stamp)
  {
  }

  lemma {:induction false} ReadAndClaimed(p: Period, between: seq<Event>, c: nat)
    requires Sane(p) && PhaseOf(p, c).Idle? && (p.status.Open? || p.status.Adjusting?) && Others(between, c)
    ensures var after := Step(Run(Step(p, Begin(c)), between), Claim(c));
      Sane(after) && p.entries <= after.entries
      && (PhaseOf(after, c).Claimed? ==> PhaseOf(after, c).key == p.stamp)
  {
    StepKeepsSane(p, Begin(c));
    RunKeepsSane(Step(p, Begin(c)), between);
    StepKeepsSane(Run(Step(p, Begin(c)), between), Claim(c));
    ReadStays(Step(p, Begin(c)), between, c);
    EntriesOnlyGrow(Step(p, Begin(c)), between);
  }

  /**
   * A claimed closer's accepted post collapses onto an earlier entry exactly when, after its
   * read, somebody posted an entry under the key it read. Otherwise it appends its own.
   */
  lemma {:induction false} CollapsesIff(p: Period, between: seq<Event>, later: seq<Event>, c: nat)
    requires Sane(p) && PhaseOf(p, c).Idle? && (p.status.Open? || p.status.Adjusting?)
    requires Others(between, c) && Others(later, c)
    requires PhaseOf(Step(Run(Step(p, Begin(c)), between), Claim(c)), c).Claimed?
    ensures var q := Run(Step(Run(Step(p, Begin(c)), between), Claim(c)), later);
      Step(q, Post(c, Accepted)).entries
        == q.entries + if UsedSince(q.entries, |p.entries|, p.stamp) then [] else [Entry(p.stamp, q.cycle)]
  {
    var after := Step(Run(Step(p, Begin(c)), between), Claim(c));
    ReadAndClaimed(p, between, c);
    ClaimHolds(after, later, c);
    OpenKeyIsUnused(p);
    UsedBeforeOrSince(p.entries, after.entries, p.stamp);
  }

  lemma {:induction false} UsedBeforeOrSince(a: seq<Entry>, b: seq<Entry>, key: Stamp)
    requires a <= b && !Used(a, key)
    ensures Used(b, key) <==> UsedSince(b, |a|, key)
  {
    forall i | 0 <= i < |a| ensures b[i].key != key {
      assert b[i] == a[i];
    }
  }

  /** Closed in its second cycle, with the first cycle's entry only. */
  predicate LeftUnclosed(p: Period) {
    p.status.Closed? && p.cycle == 1 && p.entries == [Entry(Initial, 0)]
  }

  /**
   * The guard matters: one closer reads, another closes, the period is reopened, and the first
   * then claims. Its post collapses onto the earlier cycle's entry, so the reopened cycle ends
   * closed without an entry of its own.
   */
  lemma {:induction false} StaleReadReusesKey()
    ensures exists p: Period, events: seq<Event> :: Fresh(p) && LeftUnclosed(Run(p, events))
  {
    var p := Period(Open, Initial, 0, [], map[]);
    var late := [Reopen(5), Claim(1), Post(1, Accepted), Finish(1)];
    var p1 := Step(p, Begin(1));
    OtherCloses(p1);
    LateClaim(Run(p1, CloseEvents(2, Accepted)));
    RunAppend(p1, CloseEvents(2, Accepted), late);
    RunOne(p, Begin(1), CloseEvents(2, Accepted) + late);
  }

  lemma {:induction false} OtherCloses(p: Period)
    requires p == Period(Open, Initial, 0, [], map[1 := HasRead(Initial)])
    ensures Run(p, CloseEvents(2, Accepted))
      == Period(Closed, Initial, 0, [Entry(Initial, 0)], map[1 := HasRead(Initial), 2 := Idle])
  {
    RunFour(p, Begin(2), Claim(2), Post(2, Accepted), Finish(2));
  }

  lemma {:induction false} LateClaim(p: Period)
    requires p == Period(Closed, Initial, 0, [Entry(Initial, 0)], map[1 := HasRead(Initial), 2 := Idle])
    ensures LeftUnclosed(Run(p, [Reopen(5), Claim(1), Post(1, Accepted), Finish(1)]))
  {
    RunFour(p, Reopen(5), Claim(1), Post(1, Accepted), Finish(1));
    assert p.entries[0].key == Initial;
  }

  lemma {:induction false} RunAppend(p: Period, a: seq<Event>, b: seq<Event>)
    ensures Run(p, a + b) == Run(Run(p, a), b)
    decreases |a|
  {
    if a == [] {
      assert a + b == b;
    } else {
      assert (a + b)[1..] == a[1..] + b;
      RunAppend(Step(p, a[0]), a[1..], b);
    }
  }

  lemma {:induction false} RunOne(p: Period, e: Event, rest: seq<Event>)
    ensures Run(p, [e] + rest) == Run(Step(p, e), rest)
  {
    assert ([e] + rest)[1..] == rest;
  }

  // ------------------------------------------------------------------ the verbs, one caller at a time

  datatype CloseError =
    | AlreadyClosed
    | CloseInProgress
    | NotClosed(status: Status)
    | IsLocked
    | ReasonRequired
    | PostingRefused
    | Internal

  /** The whole close of one closer, with nothing in between. */
  function CloseEvents(c: nat, posting: Posting): seq<Event> {
    [Begin(c), Claim(c), Post(c, posting), if posting.Refused? then Abort(c) else Finish(c)]
  }

  lemma {:induction false} RunFour(p: Period, a: Event, b: Event, c: Event, d: Event)
    ensures Run(p, [a, b, c, d]) == Step(Step(Step(Step(p, a), b), c), d)
  {
    assert [a, b, c, d] == [a] + ([b] + ([c] + ([d] + [])));
    RunOne(p, a, [b] + ([c] + ([d] + [])));
    RunOne(Step(p, a), b, [c] + ([d] + []));
    RunOne(Step(Step(p, a), b), c, [d] + []);
    RunOne(Step(Step(Step(p, a), b), c), d, []);
  }

  /** A fiscal period's row, the closing entries posted for it, and how often it was reopened. */
  class FiscalPeriod {
    var status: Status
    var stamp: Stamp
    var entries: seq<Entry>
    var cycle: nat

    constructor ()
      ensures Fresh(Contents())
    {
      status, stamp, entries, cycle := Open, Initial, [], 0;
    }

    /** The period as the protocol sees it when no closer is under way. */
    function Contents(): Period
      reads this
    {
      Period(status, stamp, cycle, entries, map[])
    }

    /** The conditional update that claims the period. */
    method BeginClose() returns (prior: Option<Status>)
      modifies this`status
      ensures prior.Some? <==> old(status).Open? || old(status).Adjusting?
      ensures prior.Some? ==> prior.value == old(status) && status == Closing
      ensures prior.None? ==> status == old(status)
    {
      if status.Open? || status.Adjusting? {
        prior := Some(status);
        status := Closing;
      } else {
        prior := None;
      }
    }

    method FinishClose() returns (done: bool)
      modifies this`status
      ensures done <==> old(status).Closing?
      ensures status == if done then Closed else old(status)
    {
      done := status.Closing?;
      if done {
        status := Closed;
      }
    }

    method AbortClose(backTo: Status)
      modifies this`status
      ensures status == if old(status).Closing? then backTo else old(status)
    {
      if status.Closing? {
        status := backTo;
      }
    }

    /** Post under a key; a key already used gives back its entry. */
    method PostEntry(key: Stamp)
      modifies this`entries
      ensures entries == if Used(old(entries), key) then old(entries) else old(entries) + [Entry(key, cycle)]
    {
      var i := 0;
      while i < |entries|
        invariant 0 <= i <= |entries| && entries == old(entries)
        invariant forall k | 0 <= k < i :: entries[k].key != key
      {
        if entries[i].key == key {
          return;
        }
        i := i + 1;
      }
      entries := entries + [Entry(key, cycle)];
    }

    /** The close verb: what one uninterrupted closer does is exactly a run of the protocol. */
    method ClosePeriodAs(posting: Posting) returns (r: Result<(), CloseError>)
      modifies this
      ensures Contents() == Run(old(Contents()), CloseEvents(0, posting)).(closers := map[])
      ensures r == match old(status)
        case Closed => Err(AlreadyClosed)
        case Locked => Err(AlreadyClosed)
        case Closing => Err(CloseInProgress)
        case _ => if posting.Refused? then Err(PostingRefused) else Ok(())
      ensures r.Err? ==> Contents() == old(Contents())
      ensures r.Ok? ==> status.Closed?
    {
      RunFour(Contents(), Begin(0), Claim(0), Post(0, posting), if posting.Refused? then Abort(0) else Finish(0));
      var key := stamp;
      match status {
        case Closed => return Err(AlreadyClosed);
        case Locked => return Err(AlreadyClosed);
        case Closing => return Err(CloseInProgress);
        case _ =>
      }
      var prior := BeginClose();
      match posting {
        case Refused =>
          AbortClose(prior.value);
          return Err(PostingRefused);
        case Accepted => PostEntry(key);
        case Nothing =>
      }
      var done := FinishClose();
      r := if done then Ok(()) else Err(Internal);
    }

    /** Lock and reopen act on a closed period only, and must say why. */
    method RequireClosed() returns (r: Result<(), CloseError>)
      ensures r == match status
        case Closed => Ok(())
        case Locked => Err(IsLocked)
        case other => Err(NotClosed(other))
    {
      match status {
        case Closed => return Ok(());
        case Locked => return Err(IsLocked);
        case other => return Err(NotClosed(other));
      }
    }

    method LockPeriod(reason: string) returns (r: Result<(), CloseError>)
      modifies this`status
      ensures r.Ok? <==> !Blank(reason) && old(status).Closed?
      ensures Blank(reason) ==> r == Err(ReasonRequired)
      ensures Contents() == if r.Ok? then Step(old(Contents()), Lock) else old(Contents())
    {
      TrimBlank(reason);
      if Trim(reason) == "" {
        return Err(ReasonRequired);
      }
      r := RequireClosed();
      if r.Ok? {
        status := Locked;
      }
    }

    method ReopenPeriod(reason: string, now: nat) returns (r: Result<(), CloseError>)
      requires Before(stamp, At(now))
      modifies this
      ensures r.Ok? <==> !Blank(reason) && old(status).Closed?
      ensures Blank(reason) ==> r == Err(ReasonRequired)
      ensures Contents() == if r.Ok? then Step(old(Contents()), Reopen(now)) else old(Contents())
    {
      TrimBlank(reason);
      if Trim(reason) == "" {
        return Err(ReasonRequired);
      }
      r := RequireClosed();
      if r.Ok? {
        status, stamp, cycle := Open, At(now), cycle + 1;
      }
    }
  }
}
