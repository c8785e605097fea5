/** The per-address connection limiter: fixed one-minute windows kept in a table that is pruned
    on every call (internal/router/server.go). Times are nanoseconds. */
module Limiter {

  const MINUTE: int := 60_000_000_000

  /** The zero time of an absent bucket; every clock reading is more than two minutes later. */
  const ZERO_TIME: int := 0

  datatype Bucket = Bucket(start: int, count: int)

  type Table = map<string, Bucket>

  function Lookup(t: Table, ip: string): Bucket {
    if ip in t then t[ip] else Bucket(ZERO_TIME, 0)
  }

  /** A bucket after one more call. */
  function Touch(b: Bucket, now: int): Bucket {
    if now - b.start >= MINUTE then Bucket(now, 1) else Bucket(b.start, b.count + 1)
  }

  function Pruned(t: Table, now: int): Table {
    map k | k in t && now - t[k].start <= 2 * MINUTE :: t[k]
  }

  class IpLimiter {
    const limit: int
    var ips: Table

    constructor (limit: int)
      ensures this.limit == limit && ips == map[]
    {
      this.limit := limit;
      ips := map[];
    }

    method Allow(ip: string, now: int) returns (ok: bool)
      requires now > ZERO_TIME + 2 * MINUTE
      modifies this
      ensures ips == Pruned(old(ips)[ip := Touch(Lookup(old(ips), ip), now)], now)
      ensures ok <==> Touch(Lookup(old(ips), ip), now).count <= limit
      ensures forall k :: k in ips ==> now - ips[k].start <= 2 * MINUTE
    {
      var b := if ip in ips then ips[ip] else Bucket(ZERO_TIME, 0);
      if now - b.start >= MINUTE {
        b := Bucket(now, 0);
      }
      if b.start == ZERO_TIME {
        b := b.(start := now);
      }
      b := b.(count := b.count + 1);
      ips := ips[ip := b];
      ghost var full := ips;
      var rest := ips.Keys;
      while rest != {}
        invariant rest <= full.Keys
        invariant ips == map k | k in full && (k in rest || now - full[k].start <= 2 * MINUTE) :: full[k]
        decreases |rest|
      {
        var k :| k in rest;
        rest := rest - {k};
        if now - ips[k].start > 2 * MINUTE {
          ips := ips - {k};
        }
      }
      ok := b.count <= limit;
    }
  }

  // ------------------------------------------------- against a table never pruned

  datatype Call = Call(ip: string, now: int)

  ghost predicate Clocked(calls: seq<Call>) {
    && (forall i :: 0 <= i < |calls| ==> calls[i].now > ZERO_TIME + 2 * MINUTE)
    && (forall i, j :: 0 <= i <= j < |calls| ==> calls[i].now <= calls[j].now)
  }

  /** The limiter's table after a history of calls. */
  ghost function TableAfter(calls: seq<Call>): Table {
    if calls == [] then map[]
    else
      var t, c := TableAfter(calls[..|calls| - 1]), calls[|calls| - 1];
      Pruned(t[c.ip := Touch(Lookup(t, c.ip), c.now)], c.now)
  }

  /** The same without ever deleting an entry. */
  ghost function FullAfter(calls: seq<Call>): Table {
    if calls == [] then map[]
    else
      var t, c := FullAfter(calls[..|calls| - 1]), calls[|calls| - 1];
      t[c.ip := Touch(Lookup(t, c.ip), c.now)]
  }

  ghost predicate Agrees(pruned: Table, full: Table, now: int) {
    && (forall ip :: ip in pruned ==> ip in full && pruned[ip] == full[ip])
    && (forall ip :: ip in full && ip !in pruned ==> now - full[ip].start > 2 * MINUTE)
  }

  lemma {:induction false} TablesAgree(calls: seq<Call>)
    requires Clocked(calls)
    ensures Agrees(TableAfter(calls), FullAfter(calls), if calls == [] then 0 else calls[|calls| - 1].now)
  {
    if calls == [] {
    } else {
      TablesAgree(calls[..|calls| - 1]);
    }
  }

  /** Pruning is invisible: after any history under a non-decreasing clock, the next call gets
      the answer that a table never pruned would give. */
  lemma PruningInvisible(calls: seq<Call>, c: Call)
    requires Clocked(calls + [c])
    ensures Touch(Lookup(TableAfter(calls), c.ip), c.now) == Touch(Lookup(FullAfter(calls), c.ip), c.now)
  {
    assert forall i :: 0 <= i < |calls| ==> calls[i] == (calls + [c])[i];
    assert (calls + [c])[|calls|] == c;
    TablesAgree(calls);
  }

  // ------------------------------------------------------------ one address alone

  ghost function TimesOf(calls: seq<Call>, ip: string): seq<int> {
    if calls == [] then []
    else
      var before, c := TimesOf(calls[..|calls| - 1], ip), calls[|calls| - 1];
      if c.ip == ip then before + [c.now] else before
  }

  /** The bucket of one address as a function of its own call times. */
  ghost function BucketAfter(ts: seq<int>): Bucket {
    if ts == [] then Bucket(ZERO_TIME, 0) else Touch(BucketAfter(ts[..|ts| - 1]), ts[|ts| - 1])
  }

  lemma {:induction false} OwnTimesOnly(calls: seq<Call>, ip: string)
    ensures Lookup(FullAfter(calls), ip) == BucketAfter(TimesOf(calls, ip))
  {
    if calls == [] {
    } else {
      OwnTimesOnly(calls[..|calls| - 1], ip);
      var before, c := TimesOf(calls[..|calls| - 1], ip), calls[|calls| - 1];
      if c.ip == ip {
        assert (before + [c.now])[..|before|] == before;
      }
    }
  }

  ghost predicate Times(ts: seq<int>) {
    && (forall i :: 0 <= i < |ts| ==> ts[i] > ZERO_TIME + 2 * MINUTE)
    && (forall i, j :: 0 <= i <= j < |ts| ==> ts[i] <= ts[j])
  }

  /** The bucket that call `i` falls into. */
  ghost function At(ts: seq<int>, i: nat): Bucket
    requires i < |ts|
  {
    BucketAfter(ts[..i + 1])
  }

  ghost predicate Admitted(ts: seq<int>, limit: int, i: nat)
    requires i < |ts|
  {
    At(ts, i).count <= limit
  }

  /** The answer of the limiter itself to the last call of a history is that of its address alone. */
  lemma AnswerIsOwn(calls: seq<Call>, c: Call, limit: int)
    requires Clocked(calls + [c])
    ensures var ts := TimesOf(calls, c.ip) + [c.now];
            Touch(Lookup(TableAfter(calls), c.ip), c.now).count <= limit <==> Admitted(ts, limit, |ts| - 1)
  {
    var before := TimesOf(calls, c.ip);
    var ts := before + [c.now];
    PruningInvisible(calls, c);
    OwnTimesOnly(calls, c.ip);
    assert ts[..|ts|] == ts && ts[..|ts| - 1] == before;
  }

  lemma AtStep(ts: seq<int>, i: nat)
    requires 0 < i < |ts|
    ensures At(ts, i) == Touch(At(ts, i - 1), ts[i])
  {
    assert ts[..i + 1][..i] == ts[..i];
  }

  lemma AtFirst(ts: seq<int>)
    requires Times(ts) && ts != []
    ensures At(ts, 0) == Bucket(ts[0], 1)
  {
    var first := ts[..1];
    assert |first| == 1 && first[..0] == [] && first[0] == ts[0];
    assert BucketAfter(first[..0]) == Bucket(ZERO_TIME, 0);
    assert BucketAfter(first) == Touch(BucketAfter(first[..|first| - 1]), first[|first| - 1]);
    assert ts[0] > ZERO_TIME + 2 * MINUTE;
  }

  /** The call that opened the bucket of call `i`. */
  ghost function Opener(ts: seq<int>, i: nat): int
    requires i < |ts|
  {
    i + 1 - At(ts, i).count
  }

  /** Each bucket opens at some call and counts every call from there on; so the calls of a bucket
      are numbered 1, 2, 3, ... and exactly its first `limit` are admitted. */
  lemma {:induction false} BucketMeaning(ts: seq<int>, i: nat)
    requires Times(ts) && i < |ts|
    ensures var j := Opener(ts, i);
            && 0 <= j <= i && At(ts, i).start == ts[j]
            && (forall m :: j <= m <= i ==> At(ts, m) == Bucket(ts[j], m - j + 1))
            && ts[i] < ts[j] + MINUTE
            && (j > 0 ==> ts[j] >= At(ts, j - 1).start + MINUTE)
    ensures forall m, limit: int :: Opener(ts, i) <= m <= i ==> (Admitted(ts, limit, m) <==> m - Opener(ts, i) < limit)
  {
    if i == 0 {
      AtFirst(ts);
    } else {
      BucketMeaning(ts, i - 1);
      AtStep(ts, i);
    }
  }

  ghost function CountAdmitted(ts: seq<int>, limit: int, a: nat, b: nat): nat
    requires a <= b <= |ts|
    decreases b - a
  {
    if a == b then 0 else CountAdmitted(ts, limit, a, b - 1) + (if Admitted(ts, limit, b - 1) then 1 else 0)
  }

  lemma {:induction false} CountSplit(ts: seq<int>, limit: int, a: nat, m: nat, b: nat)
    requires a <= m <= b <= |ts|
    ensures CountAdmitted(ts, limit, a, b) == CountAdmitted(ts, limit, a, m) + CountAdmitted(ts, limit, m, b)
    decreases b - m
  {
    if m == b {
    } else {
      CountSplit(ts, limit, a, m, b - 1);
    }
  }

  /** Inside one bucket at most `limit` calls are admitted. */
  lemma {:induction false} CountInBucket(ts: seq<int>, limit: int, a: nat, b: nat, i: nat)
    requires Times(ts) && limit >= 0 && i < |ts|
    requires Opener(ts, i) <= a <= b <= i + 1
    ensures CountAdmitted(ts, limit, a, b) <= (if b - Opener(ts, i) < limit then b - Opener(ts, i) else limit)
    decreases b - a
  {
    BucketMeaning(ts, i);
    if a == b {
    } else {
      CountInBucket(ts, limit, a, b - 1, i);
    }
  }

  /** Any half-open one-minute interval admits at most twice the limit per address. */
  lemma TwiceTheLimit(ts: seq<int>, limit: int, a: nat, b: nat, t: int)
    requires Times(ts) && limit >= 0 && a <= b <= |ts|
    requires forall m :: a <= m < b ==> t <= ts[m] < t + MINUTE
    ensures CountAdmitted(ts, limit, a, b) <= 2 * limit
  {
    if a < b {
      BucketMeaning(ts, b - 1);
      var j := Opener(ts, b - 1);
      if j <= a {
        CountInBucket(ts, limit, a, b, b - 1);
      } else {
        CountSplit(ts, limit, a, j, b);
        CountInBucket(ts, limit, j, b, b - 1);
        BucketMeaning(ts, j - 1);
        assert t <= ts[j] < t + MINUTE;
        assert Opener(ts, j - 1) <= a;
        CountInBucket(ts, limit, a, j, j - 1);
      }
    }
  }

  /** A window lasts exactly a minute: a call less than sixty seconds after the first of its bucket is
      counted there, a later one opens a new bucket. */
  lemma WindowIsOneMinute(b: Bucket, now: int)
    ensures now - b.start < 60_000_000_000 ==> Touch(b, now) == Bucket(b.start, b.count + 1)
    ensures now - b.start >= 60_000_000_000 ==> Touch(b, now) == Bucket(now, 1)
  {
  }
}
