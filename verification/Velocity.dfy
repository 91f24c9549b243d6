/** Per-key attempt caps over a minute and a day: velocity.ts. */
module Velocity {
  import opened Prelude
  import Calendar

  const PER_MINUTE_MAX := 5
  const PER_DAY_MAX := 50
  const MINUTE_MS := 60_000
  const DAY_MS := Calendar.DAY_MS
  const MAX_KEYS := 10_000

  /** A fixed window: when it opened and how many attempts it has allowed. */
  datatype Window = Window(since: int, count: int)
  datatype Bucket = Bucket(minute: Window, day: Window)
  datatype Period = Minute | Day
  datatype Answer = Allowed | Refused(reason: Period, retryAfterSec: int)

  function NewBucket(now: int): Bucket {
    Bucket(Window(now, 0), Window(now, 0))
  }

  /** A window whose span has passed is replaced by one that opens now. */
  function Rolled(w: Window, now: int, span: int): Window {
    if now - w.since >= span then Window(now, 0) else w
  }

  function CeilSeconds(ms: int): int {
    -((-ms) / 1000)
  }

  function RetryAfter(w: Window, now: int, span: int): int {
    Max(1, CeilSeconds(w.since + span - now))
  }

  /** One attempt against a key's bucket. */
  function Attempt(bucket: Option<Bucket>, now: int): (Bucket, Answer) {
    var b := if bucket.Some? then bucket.value else NewBucket(now);
    var minute, day := Rolled(b.minute, now, MINUTE_MS), Rolled(b.day, now, DAY_MS);
    if minute.count >= PER_MINUTE_MAX then
      (Bucket(minute, day), Refused(Minute, RetryAfter(minute, now, MINUTE_MS)))
    else if day.count >= PER_DAY_MAX then
      (Bucket(minute, day), Refused(Day, RetryAfter(day, now, DAY_MS)))
    else
      (Bucket(Window(minute.since, minute.count + 1), Window(day.since, day.count + 1)), Allowed)
  }

  /** The keys that eviction leaves: all of them up to the maximum, else the
    * newest, a hundred below it. */
  function Survivors(order: seq<string>): seq<string> {
    if |order| <= MAX_KEYS then order else order[|order| - MAX_KEYS + 100..]
  }

  function Restricted(buckets: map<string, Bucket>, keys: seq<string>): map<string, Bucket> {
    map k | k in buckets && k in keys :: buckets[k]
  }

  predicate NoRepeats(order: seq<string>) {
    forall i, j :: 0 <= i < j < |order| ==> order[i] != order[j]
  }

  /** Deleting the oldest remaining key. */
  lemma DropOldest(buckets: map<string, Bucket>, order: seq<string>, i: nat)
    requires i < |order| && NoRepeats(order)
    ensures Restricted(buckets, order[i..]) - {order[i]} == Restricted(buckets, order[i + 1..])
  {
    assert order[i..] == [order[i]] + order[i + 1..];
    assert order[i] !in order[i + 1..];
  }

  lemma SuffixNoRepeats(order: seq<string>, i: nat)
    requires i <= |order| && NoRepeats(order)
    ensures NoRepeats(order[i..])
  {
  }

  class Limiter {
    var buckets: map<string, Bucket>
    /** Keys in insertion order, oldest first. */
    var order: seq<string>
    /** For each key, its attempts since its bucket was made. */
    ghost var attempts: map<string, seq<int>>

    /** Every bucket is the one its own key's attempts lead to, whatever other
      * keys did in between. */
    ghost predicate Valid()
      reads this
    {
      && (forall k :: k in order <==> k in buckets)
      && NoRepeats(order)
      && attempts.Keys == buckets.Keys
      && (forall k :: k in buckets ==> After(attempts[k]) == Some(buckets[k]))
    }

    constructor ()
      ensures Valid() && buckets == map[]
    {
      buckets := map[];
      order := [];
      attempts := map[];
    }

    /** Deletes the oldest keys one by one once there are too many. */
    method EvictIfNeeded()
      requires Valid()
      modifies this
      ensures Valid()
      ensures order == Survivors(old(order))
      ensures buckets == Restricted(old(buckets), Survivors(old(order)))
      ensures |old(order)| <= MAX_KEYS ==> buckets == old(buckets)
      ensures forall k :: k in buckets ==> k in old(attempts) && attempts[k] == old(attempts)[k]
    {
      hide After, NoRepeats;
      assert Restricted(buckets, order) == buckets;
      if |order| <= MAX_KEYS {
        return;
      }
      var drop := |order| - MAX_KEYS + 100;
      DropUpTo(drop);
      SuffixNoRepeats(order, drop);
      order := order[drop..];
      attempts := map k | k in buckets :: attempts[k];
    }

    method DropUpTo(drop: nat)
      requires drop <= |order| && NoRepeats(order) && buckets == Restricted(buckets, order)
      modifies this`buckets
      ensures buckets == Restricted(old(buckets), order[drop..])
    {
      hide Restricted, NoRepeats;
      for i := 0 to drop
        invariant buckets == Restricted(old(buckets), order[i..])
      {
        DropOldest(old(buckets), order, i);
        buckets := buckets - {order[i]};
      }
    }

    /** The attempt is answered from this key's own bucket, if it survives the
      * eviction, and no other surviving bucket changes. */
    method RecordAttempt(key: string, now: int) returns (answer: Answer)
      requires Valid()
      modifies this
      ensures Valid()
      ensures var kept := Restricted(old(buckets), Survivors(old(order)));
              var prior := if key in kept then Some(kept[key]) else None;
              && answer == Attempt(prior, now).1
              && buckets == kept[key := Attempt(prior, now).0]
      ensures order == Survivors(old(order)) + (if key in Survivors(old(order)) then [] else [key])
      ensures |old(order)| <= MAX_KEYS ==> Restricted(old(buckets), Survivors(old(order))) == old(buckets)
      ensures forall k :: k in buckets && k != key ==> k in old(attempts) && attempts[k] == old(attempts)[k]
      ensures key in attempts && |attempts[key]| > 0
      ensures var n := |attempts[key]| - 1;
              && attempts[key][n] == now
              && attempts[key][..n] == (if key in Restricted(old(buckets), Survivors(old(order)))
                                        then old(attempts)[key] else [])
              && (answer == Allowed <==> IsAllowed(attempts[key], n))
    {
      hide Restricted, Survivors, AllowedBetween, After, Attempt, NoRepeats;
      EvictIfNeeded();
      ghost var earlier := if key in buckets then attempts[key] else [];
      Appended(earlier, now, 0, 0);
      NothingYet();
      var entry: Bucket;
      entry, answer := Count(if key in buckets then buckets[key] else NewBucket(now), now);
      NewBucketIsAbsent(now);
      Put(key, entry, earlier + [now]);
    }

    /** Writes one key's bucket, a new key as the newest. */
    method Put(key: string, entry: Bucket, ghost times: seq<int>)
      requires Valid() && After(times) == Some(entry)
      modifies this
      ensures Valid()
      ensures buckets == old(buckets)[key := entry] && attempts == old(attempts)[key := times]
      ensures order == old(order) + (if key in old(order) then [] else [key])
    {
      hide After;
      if key !in buckets {
        order := order + [key];
      }
      buckets := buckets[key := entry];
      attempts := attempts[key := times];
    }

    /** Rolls both windows, then counts the attempt unless one of them is full. */
    static method Count(bucket: Bucket, now: int) returns (entry: Bucket, answer: Answer)
      ensures (entry, answer) == Attempt(Some(bucket), now)
    {
      entry := bucket;
      if now - entry.minute.since >= MINUTE_MS {
        entry := entry.(minute := Window(now, 0));
      }
      if now - entry.day.since >= DAY_MS {
        entry := entry.(day := Window(now, 0));
      }
      if entry.minute.count >= PER_MINUTE_MAX {
        answer := Refused(Minute, Max(1, CeilSeconds(entry.minute.since + MINUTE_MS - now)));
      } else if entry.day.count >= PER_DAY_MAX {
        answer := Refused(Day, Max(1, CeilSeconds(entry.day.since + DAY_MS - now)));
      } else {
        entry := Bucket(Window(entry.minute.since, entry.minute.count + 1),
                        Window(entry.day.since, entry.day.count + 1));
        answer := Allowed;
      }
    }
  }

  lemma NewBucketIsAbsent(now: int)
    ensures Attempt(Some(NewBucket(now)), now) == Attempt(None, now)
  {
  }

  lemma NothingYet()
    ensures After([]) == None && forall lo, hi :: AllowedBetween([], lo, hi) == 0
  {
  }

  /** One attempt more. */
  lemma Appended(times: seq<int>, now: int, lo: int, hi: int)
    ensures var more := times + [now];
            && more[|times|] == now && more[..|times|] == times
            && After(more) == Some(Attempt(After(times), now).0)
            && (IsAllowed(more, |times|) <==> Attempt(After(times), now).1 == Allowed)
            && AllowedBetween(more, lo, hi)
               == AllowedBetween(times, lo, hi)
               + (if Attempt(After(times), now).1 == Allowed && lo <= now <= hi then 1 else 0)
  {
    assert (times + [now])[..|times|] == times;
  }

  // ---------- runs of attempts with one key ----------

  /** The bucket after attempts at these instants, with none evicted. */
  function After(times: seq<int>): Option<Bucket> {
    if |times| == 0 then None
    else Some(Attempt(After(times[..|times| - 1]), times[|times| - 1]).0)
  }

  predicate IsAllowed(times: seq<int>, k: nat)
    requires k < |times|
  {
    Attempt(After(times[..k]), times[k]).1 == Allowed
  }

  /** How many of the first n attempts were allowed between lo and hi. */
  function AllowedBetween(times: seq<int>, lo: int, hi: int): nat {
    if |times| == 0 then 0
    else
      var n := |times| - 1;
      AllowedBetween(times[..n], lo, hi) + (if IsAllowed(times, n) && lo <= times[n] <= hi then 1 else 0)
  }

  predicate Increasing(times: seq<int>) {
    forall i, j :: 0 <= i < j < |times| ==> times[i] <= times[j]
  }

  function WindowOf(b: Bucket, p: Period): Window {
    if p == Minute then b.minute else b.day
  }

  function Span(p: Period): int {
    if p == Minute then MINUTE_MS else DAY_MS
  }

  function Cap(p: Period): int {
    if p == Minute then PER_MINUTE_MAX else PER_DAY_MAX
  }

  /** The window counts what it has allowed since it opened, and the stretch of
    * one span before it held at most one windowful. */
  predicate Tracks(times: seq<int>, p: Period)
    requires |times| > 0
  {
    var w := WindowOf(After(times).value, p);
    var last := times[|times| - 1];
    && w.since <= last < w.since + Span(p)
    && AllowedBetween(times, w.since, last) == w.count <= Cap(p)
    && AllowedBetween(times, w.since - Span(p), w.since - 1) <= Cap(p)
  }

  lemma {:induction false} Additive(times: seq<int>, lo: int, mid: int, hi: int)
    requires lo <= mid <= hi + 1
    ensures AllowedBetween(times, lo, hi) == AllowedBetween(times, lo, mid - 1) + AllowedBetween(times, mid, hi)
  {
    if |times| > 0 {
      Additive(times[..|times| - 1], lo, mid, hi);
    }
  }

  lemma {:induction false} Narrower(times: seq<int>, lo: int, hi: int, lo2: int, hi2: int)
    requires lo2 <= lo && hi <= hi2
    ensures AllowedBetween(times, lo, hi) <= AllowedBetween(times, lo2, hi2)
  {
    if |times| > 0 {
      Narrower(times[..|times| - 1], lo, hi, lo2, hi2);
    }
  }

  /** Attempts after the last one so far do not exist yet. */
  lemma {:induction false} NothingLater(times: seq<int>, last: int, lo: int, hi: int)
    requires forall i :: 0 <= i < |times| ==> times[i] <= last
    ensures last < lo ==> AllowedBetween(times, lo, hi) == 0
    ensures last <= hi ==> AllowedBetween(times, lo, hi) == AllowedBetween(times, lo, last)
  {
    if |times| > 0 {
      NothingLater(times[..|times| - 1], last, lo, hi);
    }
  }

  /** What an attempt does to the window of one period. */
  lemma AttemptOnWindow(bucket: Option<Bucket>, p: Period, now: int)
    ensures var (next, answer) := Attempt(bucket, now);
            var w := if bucket.Some? then Rolled(WindowOf(bucket.value, p), now, Span(p)) else Window(now, 0);
            && WindowOf(next, p) == w.(count := w.count + (if answer == Allowed then 1 else 0))
            && (answer == Allowed ==> w.count < Cap(p))
  {
  }

  lemma {:induction false} WindowTracks(times: seq<int>, p: Period)
    requires |times| > 0 && Increasing(times)
    ensures Tracks(times, p)
  {
    hide Attempt;
    var n := |times| - 1;
    var now, prior := times[n], times[..n];
    AttemptOnWindow(After(prior), p, now);
    if n > 0 {
      WindowTracks(prior, p);
      var w := WindowOf(After(prior).value, p);
      var last := prior[n - 1];
      NothingLater(prior, last, now, now);
      if now - w.since >= Span(p) {
        Narrower(prior, now - Span(p), now - 1, w.since, now - 1);
        NothingLater(prior, last, w.since, now - 1);
      } else {
        NothingLater(prior, last, w.since, now);
        NothingLater(prior, last, w.since - Span(p), w.since - 1);
      }
    }
    var w := WindowOf(After(times).value, p);
    assert AllowedBetween(times, w.since, now) == w.count;
    assert AllowedBetween(times, w.since - Span(p), w.since - 1) <= Cap(p);
  }

  /** However the attempts fall, no 60-second interval holds more than ten
    * allowed ones and no 24-hour interval more than a hundred: a windowful on
    * either side of a window's opening. */
  lemma {:induction false} AllowedRate(times: seq<int>, p: Period, x: int)
    requires Increasing(times)
    ensures AllowedBetween(times, x, x + Span(p)) <= 2 * Cap(p)
  {
    if |times| > 0 {
      var n := |times| - 1;
      var now := times[n];
      AllowedRate(times[..n], p, x);
      if IsAllowed(times, n) && x <= now <= x + Span(p) {
        WindowTracks(times, p);
        var w := WindowOf(After(times).value, p);
        NothingLater(times, now, x, x + Span(p));
        Narrower(times, x, now, w.since - Span(p), now);
        Additive(times, w.since - Span(p), w.since, now);
      }
    }
  }

  // ---------- when the plain cap holds ----------

  /** Between `gap` milliseconds before the current window opened and the last
    * attempt, no more than one windowful was allowed. */
  predicate WithinPlainCap(times: seq<int>, p: Period, gap: int)
    requires |times| > 0
  {
    AllowedBetween(times, WindowOf(After(times).value, p).since - gap, times[|times| - 1]) <= Cap(p)
  }

  /** An attempt at 0, one `gap` before the next window, then k in that window. */
  function Burst(p: Period, gap: int, k: nat): (times: seq<int>)
    ensures |times| == k + 2
  {
    if k == 0 then [0, Max(0, Span(p) - gap)]
    else Burst(p, gap, k - 1) + [BurstTime(p, k - 1)]
  }

  predicate MidBurst(b: Bucket, p: Period, k: nat, last: int) {
    if p == Minute then b == Bucket(Window(MINUTE_MS, k), Window(0, k + 2))
    else b.day == Window(DAY_MS, k) && b.minute.count <= 3 && b.minute.since <= last
  }

  function BurstTime(p: Period, k: int): int {
    Span(p) + (if p == Minute then 0 else k * MINUTE_MS)
  }

  lemma BurstStart(p: Period, gap: int)
    requires gap > 0
    ensures var times := Burst(p, gap, 0);
            && Increasing(times)
            && After(times).Some?
            && WindowOf(After(times).value, p) == Window(0, 2)
            && (p == Minute ==> After(times).value.day == Window(0, 2))
            && (p == Day ==> After(times).value.minute.count <= 2 && After(times).value.minute.since <= times[1])
            && AllowedBetween(times, Span(p) - gap, times[1]) >= 1
  {
    hide After, AllowedBetween, IsAllowed;
    var second := Max(0, Span(p) - gap);
    FirstAttempt();
    Appended([0], second, Span(p) - gap, second);
    assert [0] + [second] == Burst(p, gap, 0);
  }

  lemma FirstAttempt()
    ensures After([0]) == Some(Bucket(Window(0, 1), Window(0, 1)))
  {
    NothingYet();
    Appended([], 0, 0, 0);
    assert [] + [0] == [0];
  }

  lemma BurstFirst(p: Period, gap: int)
    requires gap > 0
    ensures var times := Burst(p, gap, 1);
            && Increasing(times)
            && After(times).Some? && MidBurst(After(times).value, p, 1, times[2])
            && AllowedBetween(times, Span(p) - gap, times[2]) >= 2
  {
    hide After, AllowedBetween;
    var earlier := Burst(p, gap, 0);
    BurstStart(p, gap);
    Appended(earlier, BurstTime(p, 0), Span(p) - gap, BurstTime(p, 0));
    Narrower(earlier, Span(p) - gap, earlier[1], Span(p) - gap, BurstTime(p, 0));
  }

  lemma {:induction false} BurstAllowed(p: Period, gap: int, k: nat)
    requires gap > 0 && 0 < k <= Cap(p)
    ensures var times := Burst(p, gap, k);
            && Increasing(times) && times[k + 1] == BurstTime(p, k - 1)
            && After(times).Some? && MidBurst(After(times).value, p, k, times[k + 1])
            && AllowedBetween(times, Span(p) - gap, times[k + 1]) >= k + 1
  {
    hide After, AllowedBetween;
    if k == 1 {
      BurstFirst(p, gap);
    } else {
      var earlier := Burst(p, gap, k - 1);
      BurstAllowed(p, gap, k - 1);
      Appended(earlier, BurstTime(p, k - 1), Span(p) - gap, BurstTime(p, k - 1));
      Narrower(earlier, Span(p) - gap, earlier[k], Span(p) - gap, BurstTime(p, k - 1));
    }
  }

  /** The plain cap holds of every run from the opening of its current window
    * on, and from no earlier instant, not even by a millisecond. */
  lemma PlainCapExactly(p: Period, gap: int)
    ensures (forall times :: |times| > 0 && Increasing(times) ==> WithinPlainCap(times, p, gap)) <==> gap <= 0
  {
    if gap <= 0 {
      forall times | |times| > 0 && Increasing(times) ensures WithinPlainCap(times, p, gap) {
        WindowTracks(times, p);
        var since, last := WindowOf(After(times).value, p).since, times[|times| - 1];
        Narrower(times, since - gap, last, since, last);
      }
    } else {
      BurstAllowed(p, gap, Cap(p));
      assert !WithinPlainCap(Burst(p, gap, Cap(p)), p, gap);
    }
  }

  /** Five attempts at one instant and five a minute later: ten are allowed
    * within sixty seconds. */
  lemma TenInAMinute()
    ensures var times := [0, 0, 0, 0, 0, 60_000, 60_000, 60_000, 60_000, 60_000];
            Increasing(times) && AllowedBetween(times, 0, 0 + MINUTE_MS) == 10
  {
    var times := [0, 0, 0, 0, 0, 60_000, 60_000, 60_000, 60_000, 60_000];
    TenAllowed(times, 10);
    assert times[..10] == times;
  }

  lemma {:induction false} TenAllowed(times: seq<int>, k: nat)
    requires times == [0, 0, 0, 0, 0, 60_000, 60_000, 60_000, 60_000, 60_000] && 0 < k <= 10
    ensures After(times[..k]) == Some(Bucket(if k <= 5 then Window(0, k) else Window(60_000, k - 5), Window(0, k)))
    ensures AllowedBetween(times[..k], 0, MINUTE_MS) == k
  {
    hide After, AllowedBetween, IsAllowed;
    assert times[..k] == times[..k - 1] + [times[k - 1]];
    Appended(times[..k - 1], times[k - 1], 0, MINUTE_MS);
    if k == 1 {
      NothingYet();
      assert times[..0] == [];
    } else {
      TenAllowed(times, k - 1);
    }
  }

  /** Waiting as long as a refusal says is enough: the next attempt is not
    * refused for the same reason, and never for one no longer than it. */
  lemma RetryAfterSuffices(times: seq<int>, next: int)
    requires |times| > 0 && Increasing(times)
    requires var n := |times| - 1;
             var answer := Attempt(After(times[..n]), times[n]).1;
             answer.Refused? && next >= times[n] + 1000 * answer.retryAfterSec
    ensures var n := |times| - 1;
            var answer := Attempt(After(times[..n]), times[n]).1;
            var again := Attempt(After(times), next).1;
            again.Refused? ==> answer.reason == Minute && again.reason == Day
  {
    WindowTracks(times, Minute);
    WindowTracks(times, Day);
  }

  /** And waiting a second less is not: until then every attempt is refused for
    * the same reason. */
  lemma RetryAfterNeeded(times: seq<int>, next: int)
    requires |times| > 0 && Increasing(times)
    requires var n := |times| - 1;
             var answer := Attempt(After(times[..n]), times[n]).1;
             answer.Refused? && times[n] <= next < times[n] + 1000 * (answer.retryAfterSec - 1)
    ensures var n := |times| - 1;
            var answer := Attempt(After(times[..n]), times[n]).1;
            var again := Attempt(After(times), next).1;
            again.Refused? && again.reason == answer.reason
  {
    WindowTracks(times, Minute);
    WindowTracks(times, Day);
  }

  /** Attempts were allowed in the window that is open, as many as it takes. */
  predicate Full(times: seq<int>, p: Period, now: int)
    requires |times| > 0
  {
    var since := WindowOf(After(times).value, p).since;
    && now < since + (if p == Minute then 60_000 else 86_400_000)
    && AllowedBetween(times, since, times[|times| - 1]) >= (if p == Minute then 5 else 50)
  }

  /** An attempt is refused exactly when five were allowed in the open minute or
    * fifty in the open day, the minute first. */
  lemma RefusedExactlyWhen(times: seq<int>, next: int)
    requires |times| > 0 && Increasing(times) && times[|times| - 1] <= next
    ensures var answer := Attempt(After(times), next).1;
            && (answer.Refused? && answer.reason == Minute <==> Full(times, Minute, next))
            && (answer.Refused? && answer.reason == Day <==> !Full(times, Minute, next) && Full(times, Day, next))
  {
    WindowTracks(times, Minute);
    WindowTracks(times, Day);
    hide After, AllowedBetween;
  }
}
