/** The login limiter (internal/auth/limiter.go): per-key failure counts with doubling back-off in bounded memory.
    Times are integers (nanoseconds), 0 is the zero time. */
module Limiter {
  import opened Prelude

  datatype Config = Config(threshold: int, base: int, max: int, ttl: int, capacity: int)

  datatype Entry = Entry(failures: nat, blockedUntil: int, lastSeen: int)

  type Entries = map<string, Entry>

  const SECOND := 1_000_000_000
  const MINUTE := 60 * SECOND

  /** NewLoginLimiter's defaults, applied in order: the maximum is compared with the corrected base. */
  function Normalised(c: Config): (r: Config)
    ensures r.threshold >= 1 && r.base > 0 && r.ttl > 0 && r.capacity >= 1
  {
    var base := if c.base <= 0 then 2 * SECOND else c.base;
    Config(if c.threshold < 1 then 5 else c.threshold, base, if c.max < base then MINUTE else c.max,
           if c.ttl <= 0 then 15 * MINUTE else c.ttl, if c.capacity < 1 then 4096 else c.capacity)
  }

  predicate ValidConfig(c: Config) {
    c.threshold >= 1 && c.base > 0 && c.ttl > 0 && c.capacity >= 1
  }

  /** The constructor can leave the maximum below the base: exactly when it was, and the base exceeds the default minute. */
  lemma MaxBelowBaseIff(c: Config)
    ensures Normalised(c).max < Normalised(c).base <==> c.max < c.base && c.base > MINUTE
  {
  }

  /** One such configuration: a base of two minutes with a maximum of a minute and a half leaves a maximum of one minute. */
  lemma MaxBelowBase()
    ensures var r := Normalised(Config(5, 2 * MINUTE, 90 * SECOND, 15 * MINUTE, 16)); r.base == 2 * MINUTE && r.max == MINUTE
  {
  }

  /** What is configured is kept where it makes sense, and otherwise replaced: five failures, two seconds, a minute, a quarter of
      an hour, 4096 entries. */
  lemma NormalisedIs(c: Config)
    ensures var n := Normalised(c);
            && n.threshold == (if c.threshold >= 1 then c.threshold else 5)
            && n.base == (if c.base > 0 then c.base else 2 * SECOND)
            && n.max == (if c.max >= n.base then c.max else 60 * SECOND)
            && n.ttl == (if c.ttl > 0 then c.ttl else 900 * SECOND)
            && n.capacity == (if c.capacity >= 1 then c.capacity else 4096)
  {
  }

  // ----- the back-off -----

  function Power2(k: nat): (p: int)
    ensures p >= 1
  {
    if k == 0 then 1 else 2 * Power2(k - 1)
  }

  function Least(a: int, b: int): int {
    if a <= b then a else b
  }

  /** The delay after `failures` failures, in closed form: doubled for each failure past the threshold, and cut at the maximum;
      the first delay is the base even where that is above the maximum. */
  function Delay(c: Config, failures: nat): int
    requires ValidConfig(c) && failures >= c.threshold
  {
    if c.base >= c.max then c.base else Least(c.base * Power2(failures - c.threshold), c.max)
  }

  lemma {:induction false} Power2Grows(j: nat, k: nat)
    requires j <= k
    ensures Power2(j) <= Power2(k)
    decreases k
  {
    if j < k { Power2Grows(j, k - 1); }
  }

  lemma DelayGrows(c: Config, f: nat, g: nat)
    requires ValidConfig(c) && c.threshold <= f <= g
    ensures 0 < c.base <= Delay(c, f) <= Delay(c, g)
    ensures c.base <= c.max ==> Delay(c, g) <= c.max
  {
    Power2Grows(f - c.threshold, g - c.threshold);
    Scaled(c.base, Power2(f - c.threshold), Power2(g - c.threshold));
    Scaled(c.base, 1, Power2(f - c.threshold));
  }

  lemma Scaled(b: int, p: int, q: int)
    requires b > 0 && p <= q
    ensures b * p <= b * q
  {
  }

  /** The doubling loop computes it. */
  method Backoff(c: Config, failures: nat) returns (delay: int)
    requires ValidConfig(c) && failures >= c.threshold
    ensures delay == Delay(c, failures)
  {
    delay := c.base;
    var i := c.threshold;
    while i < failures && delay < c.max
      invariant c.threshold <= i <= failures
      invariant delay == Delay(c, i)
    {
      DoublesOrCaps(c, i);
      delay := delay * 2;
      if delay > c.max { delay := c.max; }
      i := i + 1;
    }
    if i < failures { DelayCapped(c, i, failures); }
  }

  lemma DoublesOrCaps(c: Config, i: nat)
    requires ValidConfig(c) && i >= c.threshold && Delay(c, i) < c.max
    ensures Delay(c, i + 1) == Least(Delay(c, i) * 2, c.max)
  {
    var p := Power2(i - c.threshold);
    assert c.base * (2 * p) == c.base * p * 2;
  }

  /** The first delay is the base, and every further failure doubles it, up to the maximum. */
  lemma DelayDoubles(c: Config, f: nat)
    requires ValidConfig(c) && f >= c.threshold
    ensures c.base < c.max ==> Delay(c, c.threshold) == c.base && Delay(c, f + 1) == Least(2 * Delay(c, f), c.max)
    ensures c.base >= c.max ==> Delay(c, f) == c.base
  {
    if c.base < c.max {
      if Delay(c, f) < c.max { DoublesOrCaps(c, f); } else { DelayCapped(c, f, f + 1); }
    }
  }

  lemma DelayCapped(c: Config, i: nat, failures: nat)
    requires ValidConfig(c) && c.threshold <= i <= failures && Delay(c, i) >= c.max
    ensures Delay(c, failures) == Delay(c, i)
  {
    DelayGrows(c, i, failures);
  }

  // ----- the operations -----

  function Pruned(e: Entries, ttl: int, now: int): Entries {
    map k | k in e && now - e[k].lastSeen < ttl :: e[k]
  }

  predicate IsOldest(e: Entries, k: string) {
    k in e && forall j :: j in e ==> e[k].lastSeen <= e[j].lastSeen
  }

  /** The eviction loop over a map iterated in some order. The empty key doubles as "nothing chosen yet". */
  function Choose(e: Entries, order: seq<string>, chosen: string, oldest: int): string
    decreases |order|
  {
    if order == [] then chosen
    else if order[0] in e && (chosen == "" || e[order[0]].lastSeen < oldest) then Choose(e, order[1..], order[0], e[order[0]].lastSeen)
    else Choose(e, order[1..], chosen, oldest)
  }

  /** evictOldestLocked: nothing goes if the loop ends on the empty key. */
  function Evicted(e: Entries, order: seq<string>): Entries {
    var victim := Choose(e, order, "", 0);
    if victim == "" then e else e - {victim}
  }

  /** The order is one the map could be iterated in: every key once. */
  ghost predicate Iterates(order: seq<string>, keys: set<string>) {
    && (forall k :: k in order <==> k in keys)
    && (forall i, j | 0 <= i < j < |order| :: order[i] != order[j])
  }

  function Failed(c: Config, previous: Entry, now: int): Entry
    requires ValidConfig(c)
  {
    var failures := previous.failures + 1;
    Entry(failures, if failures >= c.threshold then now + Delay(c, failures) else previous.blockedUntil, now)
  }

  const NEW_ENTRY := Entry(0, 0, 0)

  /** A new key that finds the map full makes room by eviction. */
  function Room(c: Config, kept: Entries, key: string, order: seq<string>): Entries {
    if key !in kept && |kept| >= c.capacity then Evicted(kept, order) else kept
  }

  /** RecordFailure; `order` is the map's iteration order, which matters only when an entry is evicted. */
  function AfterFailure(c: Config, e: Entries, key: string, now: int, order: seq<string>): Entries
    requires ValidConfig(c)
  {
    var kept := Pruned(e, c.ttl, now);
    Room(c, kept, key, order)[key := Failed(c, if key in kept then kept[key] else NEW_ENTRY, now)]
  }

  /** RetryAfter: asking about a block counts as seeing the key. */
  function AfterRetry(c: Config, e: Entries, key: string, now: int): Entries {
    var kept := Pruned(e, c.ttl, now);
    if key in kept && now < kept[key].blockedUntil then kept[key := kept[key].(lastSeen := now)] else kept
  }

  function RemainingBlock(c: Config, e: Entries, key: string, now: int): Option<int> {
    var kept := Pruned(e, c.ttl, now);
    if key in kept && now < kept[key].blockedUntil then Some(kept[key].blockedUntil - now) else None
  }

  class LoginLimiter {
    const config: Config
    var entries: Entries

    ghost predicate Valid() {
      ValidConfig(config)
    }

    constructor (c: Config)
      ensures Valid() && config == Normalised(c) && entries == map[]
    {
      config := Normalised(c);
      entries := map[];
    }

    /** pruneLocked */
    method Prune(now: int)
      modifies `entries
      ensures entries == Pruned(old(entries), config.ttl, now)
    {
      var keys := entries.Keys;
      while keys != {}
        invariant keys <= entries.Keys <= old(entries).Keys
        invariant forall k :: k in entries ==> entries[k] == old(entries)[k]
        invariant forall k :: k in old(entries) && k !in keys ==> (k in entries <==> now - old(entries)[k].lastSeen < config.ttl)
        decreases |keys|
      {
        var key :| key in keys;
        if now - entries[key].lastSeen >= config.ttl { entries := entries - {key}; }
        keys := keys - {key};
      }
    }

    /** evictOldestLocked */
    method EvictOldest() returns (ghost order: seq<string>)
      modifies `entries
      ensures Iterates(order, old(entries).Keys) && entries == Evicted(old(entries), order)
    {
      var key, oldest := "", 0;
      var rest := entries.Keys;
      order := [];
      while rest != {}
        invariant entries == old(entries) && rest <= entries.Keys && Iterates(order, entries.Keys - rest)
        invariant key == Choose(entries, order, "", 0) && (key != "" ==> key in entries && oldest == entries[key].lastSeen)
        decreases |rest|
      {
        var candidate :| candidate in rest;
        ChooseSplit(entries, order, candidate, "", 0);
        order := order + [candidate];
        if key == "" || entries[candidate].lastSeen < oldest {
          key, oldest := candidate, entries[candidate].lastSeen;
        }
        rest := rest - {candidate};
      }
      assert entries.Keys - rest == entries.Keys;
      if key != "" { entries := entries - {key}; }
    }

    method RetryAfter(key: string, now: int) returns (wait: int, blocked: bool)
      modifies `entries
      ensures entries == AfterRetry(config, old(entries), key, now)
      ensures match RemainingBlock(config, old(entries), key, now)
              case Some(left) => blocked && wait == left
              case None => !blocked && wait == 0
    {
      Prune(now);
      if key !in entries || now >= entries[key].blockedUntil { return 0, false; }
      var entry := entries[key];
      entries := entries[key := entry.(lastSeen := now)];
      return entry.blockedUntil - now, true;
    }

    method MakeRoom(key: string) returns (ghost order: seq<string>)
      modifies `entries
      ensures entries == Room(config, old(entries), key, order)
      ensures key !in old(entries) && |old(entries)| >= config.capacity ==> Iterates(order, old(entries).Keys)
    {
      order := [];
      if key !in entries && |entries| >= config.capacity { order := EvictOldest(); }
    }

    method RecordFailure(key: string, now: int) returns (wait: int, blocked: bool, ghost order: seq<string>)
      requires Valid()
      modifies `entries
      ensures entries == AfterFailure(config, old(entries), key, now, order)
      ensures Legal(config, old(entries), Failure(key, now, order))
      ensures key in entries && blocked == (entries[key].failures >= config.threshold)
      ensures wait == if blocked then entries[key].blockedUntil - now else 0
    {
      hide Delay, Pruned, Evicted;
      Prune(now);
      var entry := if key in entries then entries[key] else NEW_ENTRY;
      order := MakeRoom(key);
      entry := entry.(failures := entry.failures + 1, lastSeen := now);
      wait, blocked := 0, false;
      if entry.failures >= config.threshold {
        wait := Backoff(config, entry.failures);
        entry := entry.(blockedUntil := now + wait);
        blocked := true;
      }
      entries := entries[key := entry];
    }

    method RecordSuccess(key: string)
      modifies `entries
      ensures entries == old(entries) - {key}
    {
      entries := entries - {key};
    }
  }

  lemma SetOneSize(e: Entries, key: string, entry: Entry)
    ensures |e[key := entry]| == |e| + if key in e then 0 else 1
  {
    assert e[key := entry].Keys == e.Keys + {key};
  }

  lemma PrunedSize(e: Entries, f: Entries)
    requires f.Keys <= e.Keys
    ensures |f| <= |e|
  {
    SubsetSize(f.Keys, e.Keys);
  }

  lemma {:induction false} SubsetSize(a: set<string>, b: set<string>)
    requires a <= b
    ensures |a| <= |b|
    decreases |a|
  {
    if a != {} {
      var x :| x in a;
      SubsetSize(a - {x}, b - {x});
    }
  }

  lemma PrunedSmaller(e: Entries, ttl: int, now: int)
    ensures |Pruned(e, ttl, now)| <= |e|
    ensures Pruned(e, ttl, now).Keys <= e.Keys
  {
    PrunedSize(e, Pruned(e, ttl, now));
  }

  // ----- what is decided -----

  /** A failure counts on from what is still remembered of the key, and blocks from the threshold on; of the other keys, those
      remembered are as they were, those not seen within the lifetime are forgotten, and when the map is full and the key is new
      one more may go. */
  lemma FailureDecides(c: Config, e: Entries, key: string, now: int, order: seq<string>)
    requires ValidConfig(c)
    ensures var after := AfterFailure(c, e, key, now, order);
            var remembered := key in e && now < e[key].lastSeen + c.ttl;
            var count := if remembered then e[key].failures + 1 else 1;
            && key in after && after[key].failures == count && after[key].lastSeen == now
            && after[key].blockedUntil == (if count >= c.threshold then now + Delay(c, count) else if remembered then e[key].blockedUntil else 0)
            && (forall k :: k in after && k != key ==> k in e && now < e[k].lastSeen + c.ttl && after[k] == e[k])
            && (remembered || |Pruned(e, c.ttl, now)| < c.capacity ==>
                  forall k :: k in e && k != key && now < e[k].lastSeen + c.ttl ==> k in after)
  {
    hide Delay, Choose;
  }

  /** A key is blocked for what is left of its block, if it is remembered; asking counts as seeing it. Nothing else changes but that
      what was not seen within the lifetime is forgotten. */
  lemma RetryDecides(c: Config, e: Entries, key: string, now: int)
    ensures var after, wait := AfterRetry(c, e, key, now), RemainingBlock(c, e, key, now);
            var blocked := key in e && now < e[key].lastSeen + c.ttl && now < e[key].blockedUntil;
            && wait == (if blocked then Some(e[key].blockedUntil - now) else None)
            && (forall k :: k in after <==> k in e && now < e[k].lastSeen + c.ttl)
            && (forall k :: k in after && !(blocked && k == key) ==> after[k] == e[k])
            && (blocked ==> key in after && after[key] == Entry(e[key].failures, e[key].blockedUntil, now))
  {
  }

  // ----- runs -----

  datatype Op = Retry(key: string, now: int) | Failure(key: string, now: int, order: seq<string>) | Success(key: string, now: int)

  function After(c: Config, e: Entries, op: Op): Entries
    requires ValidConfig(c)
  {
    match op
    case Retry(key, now) => AfterRetry(c, e, key, now)
    case Failure(key, now, order) => AfterFailure(c, e, key, now, order)
    case Success(key, _) => e - {key}
  }

  function AfterAll(c: Config, e: Entries, ops: seq<Op>): Entries
    requires ValidConfig(c)
    decreases |ops|
  {
    if ops == [] then e else AfterAll(c, After(c, e, ops[0]), ops[1..])
  }

  /** What holds of every entry while the clock does not run backwards. */
  ghost predicate WellKept(c: Config, e: Entries, clock: int)
    requires ValidConfig(c)
  {
    clock >= 0 && forall k :: k in e ==>
      && e[k].lastSeen <= clock
      && (e[k].failures < c.threshold ==> e[k].blockedUntil == 0)
      && (e[k].failures >= c.threshold ==> e[k].blockedUntil <= e[k].lastSeen + Delay(c, e[k].failures))
  }

  lemma StepWellKept(c: Config, e: Entries, clock: int, op: Op)
    requires ValidConfig(c) && WellKept(c, e, clock) && clock <= op.now
    ensures WellKept(c, After(c, e, op), op.now)
  {
    hide Delay;
  }

  /** A further failure never brings the end of a block forward. */
  lemma FailureNeverShortens(c: Config, e: Entries, clock: int, key: string, now: int, order: seq<string>)
    requires ValidConfig(c) && WellKept(c, e, clock) && clock <= now && key in Pruned(e, c.ttl, now)
    ensures key in AfterFailure(c, e, key, now, order)
    ensures AfterFailure(c, e, key, now, order)[key].blockedUntil >= e[key].blockedUntil
  {
    hide Delay;
    if e[key].failures >= c.threshold { DelayGrows(c, e[key].failures, e[key].failures + 1); }
    if e[key].failures + 1 == c.threshold { DelayGrows(c, c.threshold, c.threshold); }
  }

  /** The op neither clears the key nor evicts it. */
  predicate Spares(c: Config, e: Entries, op: Op, key: string) {
    match op
    case Retry(_, _) => true
    case Failure(k, now, order) => key in Pruned(e, c.ttl, now) ==> key in Room(c, Pruned(e, c.ttl, now), k, order)
    case Success(k, _) => k != key
  }

  /** The key is blocked until `until` at least, and was seen recently enough not to be pruned before then. */
  predicate Held(c: Config, e: Entries, key: string, until: int) {
    key in e && e[key].blockedUntil >= until && e[key].lastSeen >= until - c.ttl
  }

  lemma HeldStep(c: Config, e: Entries, clock: int, op: Op, key: string, until: int)
    requires ValidConfig(c) && WellKept(c, e, clock) && clock <= op.now < until
    requires Held(c, e, key, until) && Spares(c, e, op, key)
    ensures Held(c, After(c, e, op), key, until)
  {
    hide Delay;
    if op.Failure? && op.key == key {
      FailureNeverShortens(c, e, clock, key, op.now, op.order);
    }
  }

  lemma HeldIsReported(c: Config, e: Entries, key: string, until: int, now: int)
    requires Held(c, e, key, until) && now < until
    ensures RemainingBlock(c, e, key, now).Some? && RemainingBlock(c, e, key, now).value >= until - now
  {
  }

  /** The clock of a run: each op at or after the one before, all before `until`. */
  predicate Clocked(ops: seq<Op>, clock: int, until: int)
    decreases |ops|
  {
    ops == [] || (clock <= ops[0].now < until && Clocked(ops[1..], ops[0].now, until))
  }

  predicate SparesAll(c: Config, e: Entries, ops: seq<Op>, key: string)
    requires ValidConfig(c)
    decreases |ops|
  {
    ops == [] || (Spares(c, e, ops[0], key) && SparesAll(c, After(c, e, ops[0]), ops[1..], key))
  }

  lemma {:induction false} HeldAll(c: Config, e: Entries, clock: int, ops: seq<Op>, key: string, until: int)
    requires ValidConfig(c) && WellKept(c, e, clock) && Held(c, e, key, until)
    requires Clocked(ops, clock, until) && SparesAll(c, e, ops, key)
    ensures Held(c, AfterAll(c, e, ops), key, until)
    decreases |ops|
  {
    hide WellKept, Held, Spares, After;
    if ops != [] {
      StepWellKept(c, e, clock, ops[0]);
      HeldStep(c, e, clock, ops[0], key, until);
      HeldAll(c, After(c, e, ops[0]), ops[0].now, ops[1..], key, until);
    }
  }

  /** A block no longer than the entry lifetime stays reported until its end, over every run that neither clears nor evicts
      the key, whatever other keys do and however often it fails again. */
  lemma BlockHolds(c: Config, e: Entries, clock: int, key: string, at: int, order: seq<string>, ops: seq<Op>, now: int)
    requires ValidConfig(c) && WellKept(c, e, clock) && clock <= at
    requires var f := AfterFailure(c, e, key, at, order)[key].failures; f >= c.threshold && Delay(c, f) <= c.ttl
    requires var first := AfterFailure(c, e, key, at, order);
             Clocked(ops, at, first[key].blockedUntil) && SparesAll(c, first, ops, key)
    requires now < AfterFailure(c, e, key, at, order)[key].blockedUntil
    ensures var first := AfterFailure(c, e, key, at, order);
            var left := RemainingBlock(c, AfterAll(c, first, ops), key, now);
            left.Some? && left.value >= first[key].blockedUntil - now
  {
    hide Delay, WellKept, Clocked, SparesAll;
    var first := AfterFailure(c, e, key, at, order);
    StepWellKept(c, e, clock, Failure(key, at, order));
    HeldAll(c, first, at, ops, key, first[key].blockedUntil);
    HeldIsReported(c, AfterAll(c, first, ops), key, first[key].blockedUntil, now);
  }

  /** A block longer than the entry lifetime is forgotten when the lifetime ends. */
  lemma LongBlockForgotten(c: Config, e: Entries, key: string, at: int, order: seq<string>)
    requires ValidConfig(c)
    requires var f := AfterFailure(c, e, key, at, order)[key].failures; f >= c.threshold && Delay(c, f) > c.ttl
    ensures var first := AfterFailure(c, e, key, at, order);
            first[key].blockedUntil > at + c.ttl && RemainingBlock(c, first, key, at + c.ttl).None?
  {
    hide Delay;
  }

  /** One such block: two minutes long, in a limiter that forgets entries after one. It is gone from the second minute on. */
  lemma LongBlock()
    ensures var c := Config(1, 2 * MINUTE, 2 * MINUTE, MINUTE, 16);
            var first := AfterFailure(c, map[], "a", MINUTE, []);
            && Normalised(c) == c && first["a"].blockedUntil == 3 * MINUTE
            && RemainingBlock(c, first, "a", 2 * MINUTE - 1).Some? && RemainingBlock(c, first, "a", 2 * MINUTE).None?
  {
    var c := Config(1, 2 * MINUTE, 2 * MINUTE, MINUTE, 16);
    assert Pruned(map[], c.ttl, MINUTE) == map[];
  }

  /** With the base at most the maximum and the maximum at most the lifetime, every block is short enough. */
  lemma ConfiguredBlocksHold(c: Config, failures: nat)
    requires ValidConfig(c) && failures >= c.threshold && c.base <= c.max <= c.ttl
    ensures Delay(c, failures) <= c.ttl
  {
    DelayGrows(c, failures, failures);
  }

  // ----- eviction and memory -----

  /** The scan is one step of the loop for each key: a prefix, then the rest from what the prefix chose. */
  lemma {:induction false} ChooseSplit(e: Entries, before: seq<string>, last: string, chosen: string, oldest: int)
    requires last in e && (chosen != "" ==> chosen in e && oldest == e[chosen].lastSeen)
    ensures var c := Choose(e, before, chosen, oldest);
            && (c != "" ==> c in e)
            && Choose(e, before + [last], chosen, oldest) == if c == "" || e[last].lastSeen < e[c].lastSeen then last else c
    decreases |before|
  {
    if before == [] {
      assert [last][1..] == [];
    } else {
      assert (before + [last])[0] == before[0] && (before + [last])[1..] == before[1..] + [last];
      if before[0] in e && (chosen == "" || e[before[0]].lastSeen < oldest) {
        ChooseSplit(e, before[1..], last, before[0], e[before[0]].lastSeen);
      } else {
        ChooseSplit(e, before[1..], last, chosen, oldest);
      }
    }
  }

  /** Among non-empty keys the loop chooses an oldest. */
  lemma {:induction false} ChooseOldest(e: Entries, order: seq<string>)
    requires forall k :: k in order ==> k in e && k != ""
    ensures var c := Choose(e, order, "", 0);
            if order == [] then c == "" else c in order && forall k :: k in order ==> e[c].lastSeen <= e[k].lastSeen
    decreases |order|
  {
    if order != [] {
      var n := |order| - 1;
      assert order == order[..n] + [order[n]];
      assert forall k :: k in order[..n] ==> k in order;
      ChooseOldest(e, order[..n]);
      ChooseSplit(e, order[..n], order[n], "", 0);
    }
  }

  /** Without the empty key, eviction removes an oldest entry. */
  lemma EvictsOldest(e: Entries, order: seq<string>)
    requires Iterates(order, e.Keys) && e != map[] && "" !in e
    ensures IsOldest(e, Choose(e, order, "", 0)) && Evicted(e, order) == e - {Choose(e, order, "", 0)}
  {
    ChooseOldest(e, order);
    var k :| k in e;
    assert k in order;
  }

  lemma BeforeTheLast(order: seq<string>, keys: set<string>)
    requires Iterates(order, keys) && order != []
    ensures var n := |order| - 1;
            order == order[..n] + [order[n]] && order[n] in keys && forall k :: k in order[..n] <==> k in keys && k != order[n]
  {
    var n := |order| - 1;
    assert order[n] in order;
    forall k
      ensures k in order[..n] <==> k in keys && k != order[n]
    {
      if k in order[..n] { var i :| 0 <= i < n && order[i] == k; }
      if k in keys { var i :| 0 <= i < |order| && order[i] == k; }
    }
  }

  lemma OrderNotEmpty(order: seq<string>, e: Entries)
    requires Iterates(order, e.Keys) && e != map[]
    ensures order != []
  {
    var k :| k in e;
    assert k in order;
  }

  /** The one way eviction leaves a map as it is: the empty key is an entry, strictly older than all others, and iterated last. */
  lemma NothingEvictedIff(e: Entries, order: seq<string>)
    requires Iterates(order, e.Keys) && e != map[]
    ensures Evicted(e, order) == e <==>
            order != [] && order[|order| - 1] == "" && forall k :: k in e && k != "" ==> e[""].lastSeen < e[k].lastSeen
  {
    OrderNotEmpty(order, e);
    BeforeTheLast(order, e.Keys);
    hide Iterates, Choose;
    var before, last := order[..|order| - 1], order[|order| - 1];
    ChooseSplit(e, before, last, "", 0);
    var c, victim := Choose(e, before, "", 0), Choose(e, order, "", 0);
    if last == "" {
      ChooseOldest(e, before);
      if c == "" { assert forall k :: k in e && k != "" ==> k in before; }
    }
    if victim != "" { assert victim in e && victim !in Evicted(e, order); }
  }

  lemma {:induction false} OrderExists(keys: set<string>) returns (order: seq<string>)
    ensures Iterates(order, keys)
    decreases |keys|
  {
    order := [];
    if keys != {} {
      var k :| k in keys;
      var rest := OrderExists(keys - {k});
      order := rest + [k];
    }
  }

  /** So the map alone decides whether eviction can fail: the empty key must be an entry strictly older than all others. */
  lemma EvictionCanFailIff(e: Entries)
    requires e != map[]
    ensures (exists order :: Iterates(order, e.Keys) && Evicted(e, order) == e) <==>
            "" in e && forall k :: k in e && k != "" ==> e[""].lastSeen < e[k].lastSeen
  {
    if order :| Iterates(order, e.Keys) && Evicted(e, order) == e {
      NothingEvictedIff(e, order);
      assert order[|order| - 1] in order;
    }
    if "" in e && forall k :: k in e && k != "" ==> e[""].lastSeen < e[k].lastSeen {
      var others := OrderExists(e.Keys - {""});
      var order := others + [""];
      assert Iterates(order, e.Keys);
      NothingEvictedIff(e, order);
    }
  }

  const OVERFULL: Entries := map["" := Entry(1, 0, 1), "a" := Entry(1, 0, 2)]

  /** The input that shows it: two entries in a limiter with room for two, the empty key the older. A failure of a third key
      evicts nothing if the empty key is iterated last, and the map holds three. */
  lemma EmptyKeyOverflows()
    ensures var c := Config(5, SECOND, MINUTE, MINUTE, 2);
            ValidConfig(c) && Legal(c, OVERFULL, Failure("b", 3, ["a", ""])) && |AfterFailure(c, OVERFULL, "b", 3, ["a", ""])| == 3
  {
    var c := Config(5, SECOND, MINUTE, MINUTE, 2);
    assert Pruned(OVERFULL, c.ttl, 3) == OVERFULL;
    assert OVERFULL.Keys == {"", "a"};
    assert Iterates(["a", ""], OVERFULL.Keys);
    NothingEvictedIff(OVERFULL, ["a", ""]);
    assert AfterFailure(c, OVERFULL, "b", 3, ["a", ""]).Keys == {"", "a", "b"};
  }

  /** An op the limiter can perform: a failure of a new key in a full map iterates that map. */
  ghost predicate Legal(c: Config, e: Entries, op: Op) {
    op.Failure? ==>
      var kept := Pruned(e, c.ttl, op.now);
      op.key !in kept && |kept| >= c.capacity ==> Iterates(op.order, kept.Keys)
  }

  /** The ops are possible, and none of them fails the empty key. */
  ghost predicate LegalAll(c: Config, e: Entries, ops: seq<Op>)
    requires ValidConfig(c)
    decreases |ops|
  {
    ops == [] || (Legal(c, e, ops[0]) && (ops[0].Failure? ==> ops[0].key != "") && LegalAll(c, After(c, e, ops[0]), ops[1..]))
  }

  lemma RoomFits(c: Config, kept: Entries, key: string, order: seq<string>)
    requires ValidConfig(c) && |kept| <= c.capacity && "" !in kept
    requires key !in kept && |kept| >= c.capacity ==> Iterates(order, kept.Keys)
    ensures |Room(c, kept, key, order)| + (if key in kept then 0 else 1) <= c.capacity
    ensures Room(c, kept, key, order).Keys <= kept.Keys && (key in Room(c, kept, key, order) <==> key in kept)
  {
    if key !in kept && |kept| >= c.capacity {
      EvictsOldest(kept, order);
      var victim := Choose(kept, order, "", 0);
      assert (kept - {victim}).Keys == kept.Keys - {victim};
    }
  }

  lemma StepFits(c: Config, e: Entries, op: Op)
    requires ValidConfig(c) && |e| <= c.capacity && "" !in e && Legal(c, e, op) && (op.Failure? ==> op.key != "")
    ensures |After(c, e, op)| <= c.capacity && "" !in After(c, e, op)
  {
    hide Failed, Pruned, Room, Iterates;
    match op
    case Success(key, _) => PrunedSize(e, e - {key});
    case Retry(key, now) =>
      PrunedSmaller(e, c.ttl, now);
      var kept := Pruned(e, c.ttl, now);
      if key in kept { SetOneSize(kept, key, kept[key].(lastSeen := now)); }
    case Failure(key, now, order) =>
      PrunedSmaller(e, c.ttl, now);
      var kept := Pruned(e, c.ttl, now);
      RoomFits(c, kept, key, order);
      SetOneSize(Room(c, kept, key, order), key, Failed(c, if key in kept then kept[key] else NEW_ENTRY, now));
  }

  /** Memory is bounded: over every run in which the empty key does not fail, the limiter never holds more entries than its
      capacity. */
  lemma {:induction false} CapacityKept(c: Config, e: Entries, ops: seq<Op>)
    requires ValidConfig(c) && |e| <= c.capacity && "" !in e && LegalAll(c, e, ops)
    ensures |AfterAll(c, e, ops)| <= c.capacity && "" !in AfterAll(c, e, ops)
    decreases |ops|
  {
    hide After, Legal;
    if ops != [] {
      StepFits(c, e, ops[0]);
      CapacityKept(c, After(c, e, ops[0]), ops[1..]);
    }
  }

  // ----- failures in a row -----

  /** Failures of one key, each within the entry lifetime of the one before. */
  predicate InARow(c: Config, ops: seq<Op>, key: string, from: int)
    decreases |ops|
  {
    ops == [] ||
    (ops[0].Failure? && ops[0].key == key && from <= ops[0].now < from + c.ttl && InARow(c, ops[1..], key, ops[0].now))
  }

  /** Each counts: after them the key has failed that many times more, and is blocked by the last one for the delay of that count
      once it has reached the threshold. */
  lemma {:induction false} FailuresCount(c: Config, e: Entries, key: string, ops: seq<Op>)
    requires ValidConfig(c) && key in e && InARow(c, ops, key, e[key].lastSeen)
    ensures var end := AfterAll(c, e, ops);
            && key in end && end[key].failures == e[key].failures + |ops|
            && (ops != [] ==> end[key].lastSeen == ops[|ops| - 1].now
                              && (end[key].failures >= c.threshold ==>
                                    end[key].blockedUntil == ops[|ops| - 1].now + Delay(c, end[key].failures)))
    decreases |ops|
  {
    hide Delay, AfterFailure;
    if ops != [] {
      FailureDecides(c, e, key, ops[0].now, ops[0].order);
      FailuresCount(c, After(c, e, ops[0]), key, ops[1..]);
    }
  }
}
