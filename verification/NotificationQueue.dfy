/** The e-mail notification queue: bounded, first in first out, with up to three
    delivery attempts, one per processing pass.  The same notification may be queued
    more than once. */
module NotificationQueue {

  const QUEUE_SIZE := 100
  const MAX_RETRIES := 3

  datatype Status = Unqueued | Pending | Sent | Failed

  datatype Note = Note(status: Status, retryCount: nat)

  /** What a pass does to a queued notification whose delivery succeeds or not. */
  function Processed(n: Note, ok: bool): Note {
    if n.status != Pending then n
    else if ok then Note(Sent, 0)
    else n.(retryCount := n.retryCount + 1, status := if n.retryCount + 1 >= MAX_RETRIES then Failed else Pending)
  }

  class Notification {
    const to: string
    var status: Status
    var retryCount: nat

    constructor (to: string)
      ensures this.to == to && Value() == Note(Unqueued, 0)
    {
      this.to, this.status, this.retryCount := to, Unqueued, 0;
    }

    function Value(): Note
      reads this
    {
      Note(status, retryCount)
    }
  }

  // ---------- runs ----------

  type Notes = map<Notification, Note>

  /** All that has happened: the accepted notifications in order, what has become of
      each, the queue, what has left it as sent and as failed, and what has been
      delivered. */
  datatype History = History(
    accepted: seq<Notification>, notes: Notes, queue: seq<Notification>,
    sent: multiset<Notification>, failed: multiset<Notification>, deliveries: multiset<Notification>)

  const EMPTY := History([], map[], [], multiset{}, multiset{}, multiset{})

  /** Acceptance of a notification with some retries on record; a pass, with the queue
      positions at which SendEmail would report no error; a pass without an e-mail
      service. */
  datatype Event = Accept(n: Notification, retryCount: nat) | Pass(delivered: set<nat>) | IdlePass

  function PendingOf(notes: Notes, ns: seq<Notification>): seq<Notification> {
    if ns == [] then []
    else
      var i := |ns| - 1;
      PendingOf(notes, ns[..i]) + (if ns[i] in notes && notes[ns[i]].status == Pending then [ns[i]] else [])
  }

  /** The positions that hold a notification of this status. */
  function Holding(notes: Notes, ns: seq<Notification>, status: Status): multiset<Notification> {
    if ns == [] then multiset{}
    else
      var i := |ns| - 1;
      Holding(notes, ns[..i], status) +
        if ns[i] in notes && notes[ns[i]].status == status then multiset{ns[i]} else multiset{}
  }

  /** One queue position: a notification that an earlier position of the same pass has
      finished is skipped. */
  function Attempted(h: History, n: Notification, ok: bool): History {
    if n !in h.notes || h.notes[n].status != Pending then h
    else h.(notes := h.notes[n := Processed(h.notes[n], ok)],
            deliveries := h.deliveries + if ok then multiset{n} else multiset{})
  }

  function Sweep(h: History, ns: seq<Notification>, delivered: set<nat>): History {
    if ns == [] then h
    else
      var i := |ns| - 1;
      Attempted(Sweep(h, ns[..i], delivered), ns[i], i in delivered)
  }

  function Next(h: History, e: Event): History {
    match e
    case Accept(n, r) =>
      if |h.queue| >= QUEUE_SIZE then h
      else h.(accepted := h.accepted + [n], notes := h.notes[n := Note(Pending, r)], queue := h.queue + [n])
    case Pass(delivered) =>
      var h' := Sweep(h, h.queue, delivered);
      h'.(queue := PendingOf(h'.notes, h.queue),
          sent := h.sent + Holding(h'.notes, h.queue, Sent),
          failed := h.failed + Holding(h'.notes, h.queue, Failed))
    case IdlePass => h
  }

  function Run(es: seq<Event>): History {
    if es == [] then EMPTY else Next(Run(es[..|es| - 1]), es[|es| - 1])
  }

  lemma RunOneMore(es: seq<Event>, e: Event)
    ensures Run(es + [e]) == Next(Run(es), e)
  {
    assert (es + [e])[..|es|] == es;
  }

  lemma SweepOneMore(h: History, ns: seq<Notification>, delivered: set<nat>, i: nat)
    requires i < |ns|
    ensures Sweep(h, ns[..i + 1], delivered) == Attempted(Sweep(h, ns[..i], delivered), ns[i], i in delivered)
  {
    assert ns[..i + 1][..i] == ns[..i];
  }

  lemma EmptyPass(h: History, delivered: set<nat>)
    ensures h.queue == [] ==> Next(h, Pass(delivered)) == h
  {
  }

  // ---------- the service ----------

  datatype Result = Ok | ValidationError | QueueFull

  /** The notifications that are still pending, in order. */
  function StillPending(queue: seq<Notification>): seq<Notification>
    reads queue
  {
    if queue == [] then []
    else
      var n := |queue| - 1;
      StillPending(queue[..n]) + (if queue[n].status == Pending then [queue[n]] else [])
  }

  lemma {:induction false} StillPendingSub(queue: seq<Notification>)
    ensures forall n :: n in StillPending(queue) ==> n in queue && n.status == Pending
    ensures |StillPending(queue)| <= |queue|
    decreases |queue|
  {
    if queue != [] {
      StillPendingSub(queue[..|queue| - 1]);
    }
  }

  /** The records say of these notifications what their fields say. */
  ghost predicate Recorded(notes: Notes, ns: seq<Notification>)
    reads ns
  {
    forall n :: n in ns ==> n in notes && notes[n] == n.Value()
  }

  /** Compacting the objects is filtering by the records. */
  lemma {:induction false} CompactionFilters(queue: seq<Notification>, notes: Notes)
    requires Recorded(notes, queue)
    ensures StillPending(queue) == PendingOf(notes, queue)
    decreases |queue|
  {
    if queue != [] {
      CompactionFilters(queue[..|queue| - 1], notes);
    }
  }

  class NotificationQueueService {
    var queue: seq<Notification>
    var emailService: bool   // whether one has been set
    var outbox: seq<Notification>   // what SendEmail has taken without an error
    ghost var events: seq<Event>

    /** The queue, its notifications and the outbox are those of the run so far. */
    ghost predicate Valid()
      reads this, queue
    {
      |queue| <= QUEUE_SIZE && Shows(Run(events))
    }

    ghost predicate Shows(h: History)
      reads this, queue
    {
      && queue == h.queue
      && Recorded(h.notes, queue)
      && (forall n :: n in queue ==> n.status == Pending)
      && multiset(outbox) == h.deliveries
    }

    constructor ()
      ensures Valid() && queue == [] && !emailService && outbox == [] && events == []
    {
      queue, emailService, outbox, events := [], false, [], [];
    }

    method SetEmailService()
      requires Valid()
      modifies this`emailService
      ensures Valid() && emailService
    {
      emailService := true;
    }

    method QueueNotification(notification: Notification) returns (r: Result)
      requires Valid()
      modifies this`queue, this`events, notification`status
      ensures Valid()
      ensures r == if notification.to == "" then ValidationError
                   else if |old(queue)| >= QUEUE_SIZE then QueueFull else Ok
      ensures r.Ok? ==> queue == old(queue) + [notification] && notification.status == Pending
      ensures !r.Ok? ==> queue == old(queue) && notification.status == old(notification.status)
      ensures events == old(events) + if r.ValidationError? then [] else [Accept(notification, notification.retryCount)]
    {
      if notification.to == "" {
        return ValidationError;
      }
      RunOneMore(events, Accept(notification, notification.retryCount));
      events := events + [Accept(notification, notification.retryCount)];
      if |queue| >= QUEUE_SIZE {
        return QueueFull;
      }
      notification.status := Pending;
      queue := queue + [notification];
      return Ok;
    }

    method SendEmail(notification: Notification, accepted: bool) returns (ok: bool)
      modifies this`outbox
      ensures ok == accepted && outbox == old(outbox) + if ok then [notification] else []
    {
      ok := accepted;
      if ok {
        outbox := outbox + [notification];
      }
    }

    /** One queue position. */
    method SendOne(notification: Notification, accepted: bool)
      modifies this`outbox, notification
      ensures notification.Value() == Processed(old(notification.Value()), accepted)
      ensures outbox == old(outbox) + if old(notification.status) == Pending && accepted then [notification] else []
    {
      if notification.status != Pending {
        return;
      }
      var ok := SendEmail(notification, accepted);
      if ok {
        notification.status, notification.retryCount := Sent, 0;
      } else {
        notification.retryCount := notification.retryCount + 1;
        if notification.retryCount >= MAX_RETRIES {
          notification.status := Failed;
        }
      }
    }

    /** The sending half of a pass. */
    method SendAll(delivered: set<nat>, ghost h: History)
      requires Recorded(h.notes, queue) && multiset(outbox) == h.deliveries
      modifies this`outbox, queue
      ensures Recorded(Sweep(h, queue, delivered).notes, queue)
      ensures multiset(outbox) == Sweep(h, queue, delivered).deliveries
    {
      var i := 0;
      assert queue[..0] == [];
      while i < |queue|
        invariant 0 <= i <= |queue|
        invariant Recorded(Sweep(h, queue[..i], delivered).notes, queue)
        invariant multiset(outbox) == Sweep(h, queue[..i], delivered).deliveries
      {
        SweepOneMore(h, queue, delivered, i);
        ghost var before := Sweep(h, queue[..i], delivered);
        assert before.notes[queue[i]] == queue[i].Value();
        SendOne(queue[i], i in delivered);
        i := i + 1;
      }
      assert queue[..i] == queue;
    }

    /** The compacting half. */
    method Compact()
      modifies this`queue
      ensures queue == StillPending(old(queue))
    {
      var remaining: seq<Notification> := [];
      var i := 0;
      while i < |queue|
        invariant 0 <= i <= |queue|
        invariant remaining == StillPending(queue[..i])
      {
        assert queue[..i + 1][..i] == queue[..i];
        if queue[i].status == Pending {
          remaining := remaining + [queue[i]];
        }
        i := i + 1;
      }
      assert queue[..i] == queue;
      queue := remaining;
    }

    /** What a pass does when there is an e-mail service. */
    method SendAndCompact(delivered: set<nat>, ghost h: History)
      requires Shows(h)
      modifies this`queue, this`outbox, queue
      ensures Shows(Next(h, Pass(delivered)))
      ensures |queue| <= |old(queue)| && queue == StillPending(old(queue))
    {
      ghost var h' := Sweep(h, queue, delivered);
      SendAll(delivered, h);
      StillPendingSub(queue);
      CompactionFilters(queue, h'.notes);
      Compact();
      assert Next(h, Pass(delivered)).queue == queue;
    }

    /** One pass. */
    method ProcessQueue(delivered: set<nat>)
      requires Valid()
      modifies this`queue, this`outbox, this`events, queue
      ensures Valid() && events == old(events) + [if emailService then Pass(delivered) else IdlePass]
      ensures !emailService || old(queue) == [] ==>
        queue == old(queue) && outbox == old(outbox) && forall n :: n in queue ==> n.Value() == old(n.Value())
      ensures emailService ==> queue == StillPending(old(queue))
    {
      ghost var h := Run(events);
      ghost var e := if emailService then Pass(delivered) else IdlePass;
      RunOneMore(events, e);
      events := events + [e];
      if |queue| == 0 || !emailService {
        EmptyPass(h, delivered);
        assert Shows(h);
        return;
      }
      SendAndCompact(delivered, h);
    }
  }

  // ---------- conservation ----------

  lemma {:induction false} PendingMembers(notes: Notes, ns: seq<Notification>, x: Notification)
    ensures x in PendingOf(notes, ns) <==> x in ns && x in notes && notes[x].status == Pending
    decreases |ns|
  {
    if ns != [] {
      var i := |ns| - 1;
      PendingMembers(notes, ns[..i], x);
      assert x in ns <==> x in ns[..i] || x == ns[i];
    }
  }

  /** a is b with some elements left out. */
  predicate Thinned(a: seq<Notification>, b: seq<Notification>) {
    a == [] ||
    (b != [] &&
     (Thinned(a, b[..|b| - 1]) || (a[|a| - 1] == b[|b| - 1] && Thinned(a[..|a| - 1], b[..|b| - 1]))))
  }

  lemma ThinnedBoth(a: seq<Notification>, b: seq<Notification>, x: Notification)
    requires Thinned(a, b)
    ensures Thinned(a + [x], b + [x])
  {
    assert (a + [x])[..|a|] == a && (b + [x])[..|b|] == b;
  }

  lemma {:induction false} PendingThins(notes: Notes, a: seq<Notification>, b: seq<Notification>)
    requires Thinned(a, b)
    ensures Thinned(PendingOf(notes, a), b) && |PendingOf(notes, a)| <= |a|
    decreases |b|
  {
    if a != [] {
      var init := b[..|b| - 1];
      if Thinned(a, init) {
        PendingThins(notes, a, init);
      } else {
        var n := |a| - 1;
        PendingThins(notes, a[..n], init);
        var kept := PendingOf(notes, a[..n]);
        ThinnedBoth(kept, init, a[n]);
        assert init + [a[n]] == b && kept + [] == kept;
      }
    }
  }

  lemma HoldingOneMore(notes: Notes, ns: seq<Notification>, x: Notification)
    ensures Holding(notes, ns + [x], Sent) == Holding(notes, ns, Sent) +
      if x in notes && notes[x].status == Sent then multiset{x} else multiset{}
    ensures Holding(notes, ns + [x], Failed) == Holding(notes, ns, Failed) +
      if x in notes && notes[x].status == Failed then multiset{x} else multiset{}
    ensures multiset(PendingOf(notes, ns + [x])) == multiset(PendingOf(notes, ns)) +
      if x in notes && notes[x].status == Pending then multiset{x} else multiset{}
    ensures multiset(ns + [x]) == multiset(ns) + multiset{x}
  {
    assert (ns + [x])[..|ns|] == ns;
    assert PendingOf(notes, ns) + [] == PendingOf(notes, ns);
  }

  lemma Regroup<T>(a: multiset<T>, b: multiset<T>, c: multiset<T>, p: multiset<T>, q: multiset<T>, r: multiset<T>)
    ensures (a + b + c) + (p + q + r) == (a + p) + (b + q) + (c + r)
  {
  }

  lemma {:induction false} HoldingsAddUp(notes: Notes, ns: seq<Notification>)
    requires forall x :: x in ns ==> x in notes && notes[x].status != Unqueued
    ensures multiset(ns) == multiset(PendingOf(notes, ns)) + Holding(notes, ns, Sent) + Holding(notes, ns, Failed)
    decreases |ns|
  {
    if ns != [] {
      var i := |ns| - 1;
      var x, init := ns[i], ns[..i];
      HoldingsAddUp(notes, init);
      assert ns == init + [x];
      HoldingOneMore(notes, init, x);
      var status := notes[x].status;
      var one, none := multiset{x}, multiset{};
      Regroup(multiset(PendingOf(notes, init)), Holding(notes, init, Sent), Holding(notes, init, Failed),
              if status == Pending then one else none, if status == Sent then one else none,
              if status == Failed then one else none);
    }
  }

  /** A sweep finishes notifications and revives none. */
  lemma {:induction false} SweepKeeps(h: History, ns: seq<Notification>, delivered: set<nat>)
    ensures var h' := Sweep(h, ns, delivered);
      && h' == h.(notes := h'.notes, deliveries := h'.deliveries) && h'.notes.Keys == h.notes.Keys
      && (forall x :: x in h.notes && h.notes[x].status != Pending ==> h'.notes[x] == h.notes[x])
      && (forall x :: x in h.notes && h.notes[x].status != Unqueued ==> h'.notes[x].status != Unqueued)
    decreases |ns|
  {
    if ns != [] {
      SweepKeeps(h, ns[..|ns| - 1], delivered);
    }
  }

  ghost predicate Conserved(h: History) {
    && |h.queue| <= QUEUE_SIZE
    && multiset(h.accepted) == h.sent + h.failed + multiset(h.queue)
    && Thinned(h.queue, h.accepted)
  }

  ghost predicate Known(h: History) {
    && (forall x :: x in h.queue ==> x in h.notes)
    && (forall x :: x in h.notes ==> h.notes[x].status != Unqueued)
  }

  lemma {:induction false} AcceptConserves(h: History, n: Notification, r: nat)
    requires Conserved(h) && Known(h)
    ensures Conserved(Next(h, Accept(n, r))) && Known(Next(h, Accept(n, r)))
  {
    if |h.queue| < QUEUE_SIZE {
      ThinnedBoth(h.queue, h.accepted, n);
    }
  }

  lemma {:induction false} PassConserves(h: History, delivered: set<nat>)
    requires Conserved(h) && Known(h)
    ensures Conserved(Next(h, Pass(delivered))) && Known(Next(h, Pass(delivered)))
  {
    var h' := Sweep(h, h.queue, delivered);
    SweepKeeps(h, h.queue, delivered);
    HoldingsAddUp(h'.notes, h.queue);
    PendingThins(h'.notes, h.queue, h.accepted);
    forall x | x in PendingOf(h'.notes, h.queue)
      ensures x in h'.notes
    {
      PendingMembers(h'.notes, h.queue, x);
    }
  }

  lemma {:induction false} RunConserves(es: seq<Event>)
    ensures Conserved(Run(es)) && Known(Run(es))
    decreases |es|
  {
    if es != [] {
      var n := |es| - 1;
      RunConserves(es[..n]);
      match es[n] {
        case Accept(x, r) => AcceptConserves(Run(es[..n]), x, r);
        case Pass(delivered) => PassConserves(Run(es[..n]), delivered);
        case IdlePass =>
      }
    }
  }

  /** Bounded; nothing is lost, repetitions included; survivors keep the order in which
      they were accepted. */
  lemma {:induction false} QueueIsConserved(es: seq<Event>)
    ensures
      var h := Run(es);
      && |h.queue| <= QUEUE_SIZE
      && multiset(h.accepted) == h.sent + h.failed + multiset(h.queue)
      && |h.accepted| == |h.sent| + |h.failed| + |h.queue|
      && Thinned(h.queue, h.accepted)
  {
    RunConserves(es);
    var h := Run(es);
    assert |multiset(h.accepted)| == |h.sent + h.failed + multiset(h.queue)|;
  }

  // ---------- the fate of one notification ----------

  /** What SendEmail would report at each of the positions that hold x. */
  function ResultsAt(ns: seq<Notification>, delivered: set<nat>, x: Notification): seq<bool> {
    if ns == [] then []
    else
      var i := |ns| - 1;
      ResultsAt(ns[..i], delivered, x) + if ns[i] == x then [i in delivered] else []
  }

  /** Since it was last accepted: its retry count then, its deliveries before, and what
      has been reported for it by each pass at each of its positions. */
  datatype Life = Unknown | Accepted(start: nat, earlier: nat, outcomes: seq<bool>)

  function LifeStep(l: Life, h: History, e: Event, x: Notification): Life {
    match e
    case Accept(n, r) => if n == x && |h.queue| < QUEUE_SIZE then Accepted(r, h.deliveries[x], []) else l
    case Pass(delivered) =>
      if l.Accepted? then l.(outcomes := l.outcomes + ResultsAt(h.queue, delivered, x)) else l
    case IdlePass => l
  }

  function LifeOf(es: seq<Event>, x: Notification): Life {
    if es == [] then Unknown
    else
      var before := es[..|es| - 1];
      LifeStep(LifeOf(before, x), Run(before), es[|es| - 1], x)
  }

  /** How many attempts a notification gets that starts with r failures on record. */
  function Limit(r: nat): nat {
    if r + 1 >= MAX_RETRIES then 1 else MAX_RETRIES - r
  }

  /** One of the attempts it gets succeeds. */
  ghost predicate Delivered(l: Life)
    requires l.Accepted?
  {
    exists i :: 0 <= i < |l.outcomes| && i < Limit(l.start) && l.outcomes[i]
  }

  /** What the specification says has become of it. */
  ghost function Fate(l: Life): Note
    requires l.Accepted?
  {
    if Delivered(l) then Note(Sent, 0)
    else if |l.outcomes| >= Limit(l.start) then Note(Failed, l.start + Limit(l.start))
    else Note(Pending, l.start + |l.outcomes|)
  }

  lemma FateStep(l: Life, ok: bool)
    requires l.Accepted?
    ensures Fate(l.(outcomes := l.outcomes + [ok])) == Processed(Fate(l), ok)
  {
    var l' := l.(outcomes := l.outcomes + [ok]);
    var n := |l.outcomes|;
    if Delivered(l) {
      var i :| 0 <= i < n && i < Limit(l.start) && l.outcomes[i];
      assert l'.outcomes[i];
    } else if ok && n < Limit(l.start) {
      assert l'.outcomes[n];
    } else {
      forall i | 0 <= i < n + 1 && i < Limit(l.start)
        ensures !l'.outcomes[i]
      {
        assert i < n ==> l'.outcomes[i] == l.outcomes[i];
      }
    }
  }

  /** The record of x and its deliveries are what the specification says. */
  ghost predicate AsFated(h: History, l: Life, x: Notification)
    requires l.Accepted?
  {
    && x in h.notes && h.notes[x] == Fate(l)
    && h.deliveries[x] == l.earlier + (if h.notes[x].status == Sent then 1 else 0)
  }

  lemma AttemptAsFated(h: History, l: Life, x: Notification, ok: bool)
    requires l.Accepted? && AsFated(h, l, x)
    ensures AsFated(Attempted(h, x, ok), l.(outcomes := l.outcomes + [ok]), x)
  {
    FateStep(l, ok);
  }

  lemma {:induction false} SweepAsFated(h: History, ns: seq<Notification>, delivered: set<nat>, l: Life,
                                        x: Notification)
    requires l.Accepted? && AsFated(h, l, x)
    ensures AsFated(Sweep(h, ns, delivered), l.(outcomes := l.outcomes + ResultsAt(ns, delivered, x)), x)
    decreases |ns|
  {
    if ns == [] {
      assert l.outcomes + [] == l.outcomes;
    } else {
      var i := |ns| - 1;
      var results := ResultsAt(ns[..i], delivered, x);
      SweepAsFated(h, ns[..i], delivered, l, x);
      if ns[i] == x {
        AttemptAsFated(Sweep(h, ns[..i], delivered), l.(outcomes := l.outcomes + results), x, i in delivered);
        assert (l.outcomes + results) + [i in delivered] == l.outcomes + (results + [i in delivered]);
      } else {
        assert results + [] == results;
      }
    }
  }

  ghost predicate Tracks(h: History, l: Life, x: Notification) {
    && (l.Accepted? <==> x in h.notes)
    && (l.Accepted? ==> AsFated(h, l, x) && (x in h.queue <==> h.notes[x].status == Pending))
  }

  lemma {:induction false} PassTracks(h: History, l: Life, delivered: set<nat>, x: Notification)
    requires Tracks(h, l, x)
    ensures Tracks(Next(h, Pass(delivered)), LifeStep(l, h, Pass(delivered), x), x)
  {
    SweepKeeps(h, h.queue, delivered);
    if l.Accepted? {
      SweepAsFated(h, h.queue, delivered, l, x);
      PendingMembers(Sweep(h, h.queue, delivered).notes, h.queue, x);
    }
  }

  lemma {:induction false} AcceptTracks(h: History, l: Life, n: Notification, r: nat, x: Notification)
    requires Tracks(h, l, x)
    ensures Tracks(Next(h, Accept(n, r)), LifeStep(l, h, Accept(n, r), x), x)
  {
  }

  lemma {:induction false} RunTracks(es: seq<Event>, x: Notification)
    ensures Tracks(Run(es), LifeOf(es, x), x)
    ensures x in Run(es).accepted ==> x in Run(es).notes
    decreases |es|
  {
    if es != [] {
      var init, e := es[..|es| - 1], es[|es| - 1];
      RunTracks(init, x);
      match e {
        case Accept(n, r) => AcceptTracks(Run(init), LifeOf(init, x), n, r, x);
        case Pass(delivered) =>
          SweepKeeps(Run(init), Run(init).queue, delivered);
          PassTracks(Run(init), LifeOf(init, x), delivered, x);
        case IdlePass =>
      }
    }
  }

  /** What becomes of a notification is settled by the attempts since it was last
      accepted: it is sent, by one delivery, if one of the attempts it gets succeeds; it
      has failed once they are used up; and it is queued only while some are left. */
  lemma {:induction false} NotificationFate(es: seq<Event>, x: Notification)
    requires x in Run(es).accepted
    ensures
      var h, l := Run(es), LifeOf(es, x);
      && l.Accepted? && x in h.notes
      && (h.notes[x].status == Sent <==> exists i :: 0 <= i < |l.outcomes| && i < Limit(l.start) && l.outcomes[i])
      && (h.notes[x].status == Failed <==>
            |l.outcomes| >= Limit(l.start) && forall i :: 0 <= i < Limit(l.start) ==> !l.outcomes[i])
      && (x in h.queue <==> h.notes[x].status == Pending)
      && (|l.outcomes| >= Limit(l.start) ==> x !in h.queue)
      && h.deliveries[x] == l.earlier + (if h.notes[x].status == Sent then 1 else 0)
      && (l.start == 0 ==> Limit(l.start) == MAX_RETRIES)
  {
    RunTracks(es, x);
    var l := LifeOf(es, x);
    if |l.outcomes| >= Limit(l.start) && !Delivered(l) {
      forall i | 0 <= i < Limit(l.start)
        ensures !l.outcomes[i]
      {
      }
    }
  }

  /** A notification that is submitted once has no earlier deliveries. */
  lemma {:induction false} NoEarlierDelivery(es: seq<Event>, x: Notification)
    requires forall j, k :: 0 <= j < k < |es| && es[j].Accept? && es[k].Accept? ==> !(es[j].n == x == es[k].n)
    ensures LifeOf(es, x).Accepted? ==> LifeOf(es, x).earlier == 0
    ensures (forall k :: 0 <= k < |es| && es[k].Accept? ==> es[k].n != x) ==>
      LifeOf(es, x).Unknown? && x !in Run(es).notes && Run(es).deliveries[x] == 0
    decreases |es|
  {
    if es != [] {
      var n := |es| - 1;
      var init := es[..n];
      forall j, k | 0 <= j < k < n && init[j].Accept? && init[k].Accept?
        ensures !(init[j].n == x == init[k].n)
      {
        assert init[j] == es[j] && init[k] == es[k];
      }
      NoEarlierDelivery(init, x);
      assert forall k :: 0 <= k < n ==> init[k] == es[k];
      if es[n].Pass? && x !in Run(init).notes {
        SweepElsewhere(Run(init), Run(init).queue, es[n].delivered, x);
      }
    }
  }

  lemma {:induction false} SweepElsewhere(h: History, ns: seq<Notification>, delivered: set<nat>, x: Notification)
    requires x !in h.notes
    ensures x !in Sweep(h, ns, delivered).notes && Sweep(h, ns, delivered).deliveries[x] == h.deliveries[x]
    decreases |ns|
  {
    if ns != [] {
      SweepElsewhere(h, ns[..|ns| - 1], delivered, x);
    }
  }

  /** So it is for the service itself: everything it has accepted has left as sent or
      failed or is in its queue, and its outbox holds what the attempts say. */
  lemma {:induction false} ServiceIsConserved(service: NotificationQueueService, x: Notification)
    requires service.Valid() && x in Run(service.events).accepted
    ensures
      var h, l := Run(service.events), LifeOf(service.events, x);
      && multiset(h.accepted) == h.sent + h.failed + multiset(service.queue)
      && l.Accepted? && x in h.notes
      && multiset(service.outbox)[x] == l.earlier + (if Fate(l).status == Sent then 1 else 0)
      && (x in service.queue <==> Fate(l).status == Pending)
  {
    QueueIsConserved(service.events);
    RunTracks(service.events, x);
  }
}
