/** The background cleanup of the in-memory limiter must not be observable: no
    caller of IsAllowed may be able to tell whether, or when, a pass has run. */
module CleanupInvisible {
  import opened MemoryRateLimiter

  datatype Event =
    | AskFor(ip: string, at: nat)
    | FailFor(ip: string, at: nat)
    | SucceedFor(ip: string, at: nat)
    | Tick(at: nat)

  ghost predicate InOrder(es: seq<Event>) {
    forall i, j :: 0 <= i < j < |es| ==> es[i].at <= es[j].at
  }

  function Step(c: Config, m: Table, e: Event): Table {
    match e
    case AskFor(ip, at) => Ask(c, m, ip, at).0
    case FailFor(ip, at) => Fail(c, m, ip, at)
    case SucceedFor(ip, _) => Succeed(m, ip)
    case Tick(at) => Cleanup(c, m, at)
  }

  /** One event's part of the answers. */
  function Answer(c: Config, m: Table, e: Event): seq<bool> {
    if e.AskFor? then [Ask(c, m, e.ip, e.at).1] else []
  }

  /** The answers IsAllowed gives during the run. */
  function Answers(c: Config, m: Table, es: seq<Event>): seq<bool>
    decreases |es|
  {
    if es == [] then []
    else
      Answer(c, m, es[0]) + Answers(c, Step(c, m, es[0]), es[1..])
  }

  function WithoutTicks(es: seq<Event>): seq<Event>
    decreases |es|
  {
    if es == [] then []
    else (if es[0].Tick? then [] else [es[0]]) + WithoutTicks(es[1..])
  }

  /** Cleanup passes anywhere in any run from an empty table change no answer. */
  ghost predicate Invisible(c: Config) {
    forall es: seq<Event> :: InOrder(es) ==> Answers(c, map[], es) == Answers(c, map[], WithoutTicks(es))
  }

  // ---------- two attempts or more: a simulation ----------

  /** `e` from the table with cleanups, `e'` from the one without. */
  ghost predicate SameEntry(e: Entry, e': Entry, now: int) {
    && e.failedAttempts == e'.failedAttempts
    && e.lastAttempt == e'.lastAttempt
    && (e.lockedUntil == e'.lockedUntil || (e.lockedUntil <= now && e'.lockedUntil <= now))
  }

  /** The table with cleanups may lack entries that are stale, and instants of locks
      that are over may differ. */
  ghost predicate Simulates(c: Config, m: Table, m': Table, now: int) {
    && m.Keys <= m'.Keys
    && (forall ip :: ip in m ==> SameEntry(m[ip], m'[ip], now))
    && (forall ip :: ip in m' && ip !in m ==>
          now - m'[ip].lastAttempt > c.resetWindow && m'[ip].lockedUntil <= now)
  }

  /** Without a positive lockout nobody is ever refused, whatever the tables hold. */
  ghost predicate Quiet(m: Table, now: int) {
    forall ip :: ip in m ==> m[ip].lockedUntil <= now
  }

  predicate Hides(c: Config) {
    c.maxAttempts >= 2 || c.lockoutDuration <= 0
  }

  ghost predicate Related(c: Config, m: Table, m': Table, now: int) {
    if c.maxAttempts >= 2 then Simulates(c, m, m', now) else Quiet(m, now) && Quiet(m', now)
  }

  lemma StepRelated(c: Config, m: Table, m': Table, e: Event)
    requires Hides(c) && Related(c, m, m', e.at)
    ensures Related(c, Step(c, m, e), if e.Tick? then m' else Step(c, m', e), e.at)
    ensures e.AskFor? ==> Ask(c, m, e.ip, e.at).1 == Ask(c, m', e.ip, e.at).1
  {
  }

  lemma RelatedLater(c: Config, m: Table, m': Table, now: int, later: int)
    requires Related(c, m, m', now) && now <= later
    ensures Related(c, m, m', later)
  {
  }

  lemma {:induction false} RunRelated(c: Config, m: Table, m': Table, es: seq<Event>)
    requires Hides(c) && InOrder(es)
    requires es != [] ==> Related(c, m, m', es[0].at)
    ensures Answers(c, m, es) == Answers(c, m', WithoutTicks(es))
    decreases |es|
  {
    if es != [] {
      var e, m1 := es[0], Step(c, m, es[0]);
      var m1' := if e.Tick? then m' else Step(c, m', e);
      StepRelated(c, m, m', e);
      if |es| > 1 {
        RelatedLater(c, m1, m1', e.at, es[1].at);
      }
      RunRelated(c, m1, m1', es[1..]);
      AnswersWithoutTicks(c, m', es);
    }
  }

  lemma AnswersWithoutTicks(c: Config, m: Table, es: seq<Event>)
    requires es != []
    ensures Answers(c, m, WithoutTicks(es)) ==
      if es[0].Tick? then Answers(c, m, WithoutTicks(es[1..]))
      else Answer(c, m, es[0]) + Answers(c, Step(c, m, es[0]), WithoutTicks(es[1..]))
  {
    var rest := WithoutTicks(es[1..]);
    if es[0].Tick? {
      assert [] + rest == rest;
    } else {
      assert ([es[0]] + rest)[1..] == rest;
    }
  }

  // ---------- one attempt and a positive lockout: a run that tells ----------

  /** A failure, a long silence with a pass at its end, a second failure and a
      question: with the pass the second failure looks like a first one, which does
      not lock; without it the old entry locks. */
  lemma TellingRun(c: Config, ip: string) returns (es: seq<Event>)
    requires !Hides(c)
    ensures InOrder(es) && Answers(c, map[], es) == [true] && Answers(c, map[], WithoutTicks(es)) == [false]
  {
    var t: nat := if c.resetWindow > 0 then c.resetWindow + 1 else 1;
    var first, tick, second, ask := FailFor(ip, 0), Tick(t), FailFor(ip, t), AskFor(ip, t);
    es := [first, tick, second, ask];
    var m1 := Step(c, map[], first);
    var with, without := Step(c, Step(c, m1, tick), second), Step(c, m1, second);
    AnswersFour(c, map[], first, tick, second, ask);
    AnswersThree(c, map[], first, second, ask);
    WithoutOneTick(first, tick, second, ask);
    assert Ask(c, with, ip, t).1;
    assert !Ask(c, without, ip, t).1;
  }

  lemma WithoutOneTick(a: Event, b: Event, d: Event, e: Event)
    requires !a.Tick? && b.Tick? && !d.Tick? && !e.Tick?
    ensures WithoutTicks([a, b, d, e]) == [a, d, e]
  {
    assert [a, b, d, e][1..] == [b, d, e] && [b, d, e][1..] == [d, e] && [d, e][1..] == [e] && [e][1..] == [];
    assert WithoutTicks([]) == [];
    assert WithoutTicks([e]) == [e];
    assert WithoutTicks([d, e]) == [d] + [e];
    assert WithoutTicks([b, d, e]) == [] + [d, e];
  }

  lemma AnswersThree(c: Config, m: Table, a: Event, d: Event, e: Event)
    requires !a.AskFor? && !d.AskFor? && e.AskFor?
    ensures Answers(c, m, [a, d, e]) == [Ask(c, Step(c, Step(c, m, a), d), e.ip, e.at).1]
  {
    var m1 := Step(c, m, a);
    assert [a, d, e][1..] == [d, e] && [d, e][1..] == [e];
    AnswersOne(c, Step(c, m1, d), e);
    assert Answers(c, m1, [d, e]) == [] + Answers(c, Step(c, m1, d), [e]);
    assert Answers(c, m, [a, d, e]) == [] + Answers(c, m1, [d, e]);
  }

  lemma AnswersFour(c: Config, m: Table, a: Event, b: Event, d: Event, e: Event)
    requires !a.AskFor? && !b.AskFor? && !d.AskFor? && e.AskFor?
    ensures Answers(c, m, [a, b, d, e]) == [Ask(c, Step(c, Step(c, Step(c, m, a), b), d), e.ip, e.at).1]
  {
    assert [a, b, d, e][1..] == [b, d, e];
    AnswersThree(c, Step(c, m, a), b, d, e);
    assert Answers(c, m, [a, b, d, e]) == [] + Answers(c, Step(c, m, a), [b, d, e]);
  }

  lemma AnswersOne(c: Config, m: Table, e: Event)
    requires e.AskFor?
    ensures Answers(c, m, [e]) == [Ask(c, m, e.ip, e.at).1]
  {
    assert [e][1..] == [];
    assert Answers(c, Step(c, m, e), []) == [];
  }

  // ---------- the theorem ----------

  /** Cleanup is invisible exactly when a first failure does not lock by itself, or
      when locks have no length. */
  lemma CleanupIsInvisible(c: Config)
    ensures Invisible(c) <==> c.maxAttempts >= 2 || c.lockoutDuration <= 0
  {
    if Hides(c) {
      forall es: seq<Event> | InOrder(es)
        ensures Answers(c, map[], es) == Answers(c, map[], WithoutTicks(es))
      {
        RunRelated(c, map[], map[], es);
      }
    } else {
      var es := TellingRun(c, "");
    }
  }
}
