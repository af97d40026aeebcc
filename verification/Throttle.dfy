/** Streams slowed down by a limiter: the reader and writer of `internal/bandwidth/bandwidth.go`. */
module Throttle {
  import opened Base
  import opened Bandwidth
  import Chunker

  /** What the one caller of a stream has been charged since the limiter was made. */
  datatype Account = Account(start: Bucket, polls: seq<Poll>, charged: nat)

  ghost predicate Kept(rate: nat, a: Account, now: Bucket) {
    InRange(rate, a.start) && Charged(rate, a.start, a.polls, "stream", a.charged, now)
  }

  lemma ChargeMore(rate: nat, a: Account, b: Bucket, more: seq<Poll>, n: nat, end: Bucket)
    requires Kept(rate, a, b) && Charged(rate, b, more, "stream", n, end)
    ensures Kept(rate, Account(a.start, a.polls + more, a.charged + n), end)
  {
    ChargedAppend(rate, a.start, a.polls, "stream", a.charged, b, more, n, end);
  }

  lemma {:induction false} PartOfAll(rate: nat, b: Bucket, polls: seq<Poll>, who: string)
    ensures GrantedTo(rate, b, polls, who) <= GrantedToAll(rate, b, polls)
    ensures Overflow(rate, b, polls) >= 0.0
  {
    if polls != [] {
      PartOfAll(rate, b, polls[..|polls| - 1], who);
    }
  }

  /** No more than one full bucket beyond the rate times the time since `from`. */
  ghost predicate AtMost(rate: nat, from: real, amount: nat, t: real) {
    amount as real <= rate as real + (t - from) * rate as real
  }

  lemma WithinRefill(rate: nat, start: Bucket, end: Bucket, overflow: real, granted: nat)
    requires Balanced(rate, start, end, overflow, granted)
    requires InRange(rate, start) && InRange(rate, end) && overflow >= 0.0
    ensures AtMost(rate, start.lastCheck, granted, end.lastCheck)
  {
  }

  lemma LessAndLater(rate: nat, from: real, granted: nat, now: real, amount: nat, t: real)
    requires AtMost(rate, from, granted, now) && amount <= granted && now <= t
    ensures AtMost(rate, from, amount, t)
  {
    var r := rate as real;
    var soon, extra, late := (now - from) * r, (t - now) * r, (t - from) * r;
    RefillNotNegative(rate, t - now);
    Spread(from, now, t, r);
    assert late == soon + extra;
    assert amount as real <= granted as real <= r + soon <= r + late;
  }

  /** Since the limiter was made the stream was charged no more than that. */
  lemma ChargedSoFar(rate: nat, a: Account, now: Bucket, amount: nat, t: real)
    requires Kept(rate, a, now) && amount <= a.charged && now.lastCheck <= t
    ensures AtMost(rate, a.start.lastCheck, amount, t)
  {
    TokenLedger(rate, a.start, a.polls);
    TokensInRange(rate, a.start, a.polls);
    PartOfAll(rate, a.start, a.polls, "stream");
    var granted := GrantedToAll(rate, a.start, a.polls);
    WithinRefill(rate, a.start, now, Overflow(rate, a.start, a.polls), granted);
    LessAndLater(rate, a.start.lastCheck, granted, now.lastCheck, amount, t);
  }

  class ThrottledReader {
    const inner: Chunker.Reader
    const limiter: Limiter
    ghost var account: Account
    ghost var passed: nat

    ghost predicate Valid(clock: Clock)
      reads this, limiter, clock
    {
      && limiter.Valid(clock)
      && (limiter.bytesPerSec > 0 ==> Kept(limiter.bytesPerSec, account, limiter.View()) && passed <= account.charged)
    }

    constructor (inner: Chunker.Reader, bytesPerSec: int, clock: Clock)
      ensures Valid(clock) && fresh(limiter) && this.inner == inner && limiter.bytesPerSec == bytesPerSec
      ensures passed == 0 && account.start.lastCheck == clock.now
    {
      this.inner := inner;
      limiter := new Limiter(bytesPerSec, clock);
      passed := 0;
      new;
      account := Account(limiter.View(), [], 0);
    }

    /** Waits for the whole buffer, then passes on what one read of the inner reader brings. Whatever
        the mix of reads, the stream never runs ahead of its rate. */
    method Read(want: nat, clock: Clock) returns (data: Bytes, status: Chunker.ReadStatus)
      requires Valid(clock)
      modifies this`account, this`passed, inner, limiter, clock
      ensures Valid(clock)
      ensures |data| <= want && data + inner.rest == old(inner.rest)
      ensures status == Chunker.EOF ==> inner.rest == []
      ensures account.start == old(account.start)
      ensures limiter.bytesPerSec > 0 ==> account.charged == old(account.charged) + want
      ensures passed == old(passed) + |data|
      ensures limiter.bytesPerSec > 0 ==> AtMost(limiter.bytesPerSec, account.start.lastCheck, passed, clock.now)
    {
      if want == 0 {
        assert [] + inner.rest == inner.rest;
        KeepsUp(clock);
        return [], Chunker.More;
      }
      ghost var before := limiter.View();
      ghost var more := limiter.WaitN(want, clock, "stream");
      if limiter.bytesPerSec > 0 {
        ChargeMore(limiter.bytesPerSec, account, before, more, want, limiter.View());
        account := Account(account.start, account.polls + more, account.charged + want);
      }
      data, status := inner.Read(want);
      passed := passed + |data|;
      KeepsUp(clock);
    }

    lemma KeepsUp(clock: Clock)
      requires Valid(clock)
      ensures limiter.bytesPerSec > 0 ==> AtMost(limiter.bytesPerSec, account.start.lastCheck, passed, clock.now)
    {
      if limiter.bytesPerSec > 0 {
        ChargedSoFar(limiter.bytesPerSec, account, limiter.View(), passed, clock.now);
      }
    }
  }

  class ThrottledWriter {
    const inner: Chunker.Writer
    const limiter: Limiter
    ghost var account: Account
    ghost var passed: nat

    ghost predicate Valid(clock: Clock)
      reads this, limiter, clock
    {
      && limiter.Valid(clock)
      && (limiter.bytesPerSec > 0 ==> Kept(limiter.bytesPerSec, account, limiter.View()) && passed <= account.charged)
    }

    constructor (inner: Chunker.Writer, bytesPerSec: int, clock: Clock)
      ensures Valid(clock) && fresh(limiter) && this.inner == inner && limiter.bytesPerSec == bytesPerSec
      ensures passed == 0 && account.start.lastCheck == clock.now
    {
      this.inner := inner;
      limiter := new Limiter(bytesPerSec, clock);
      passed := 0;
      new;
      account := Account(limiter.View(), [], 0);
    }

    /** Waits for all of `data`, then hands it to the inner writer. */
    method Write(data: Bytes, clock: Clock) returns (ok: bool)
      requires Valid(clock)
      modifies this`account, this`passed, inner, limiter, clock
      ensures Valid(clock)
      ensures ok ==> inner.out == old(inner.out) + data
      ensures old(inner.out) <= inner.out <= old(inner.out) + data
      ensures inner.reliable ==> ok
      ensures account.start == old(account.start)
      ensures limiter.bytesPerSec > 0 ==> account.charged == old(account.charged) + |data|
      ensures passed == old(passed) + |inner.out| - |old(inner.out)|
      ensures limiter.bytesPerSec > 0 ==> AtMost(limiter.bytesPerSec, account.start.lastCheck, passed, clock.now)
    {
      if |data| == 0 {
        assert inner.out + data == inner.out;
        KeepsUp(clock);
        return true;
      }
      ghost var before, held := limiter.View(), inner.out;
      ghost var more := limiter.WaitN(|data|, clock, "stream");
      if limiter.bytesPerSec > 0 {
        ChargeMore(limiter.bytesPerSec, account, before, more, |data|, limiter.View());
        account := Account(account.start, account.polls + more, account.charged + |data|);
      }
      ok := inner.Write(data);
      passed := passed + (|inner.out| - |held|);
      KeepsUp(clock);
    }

    lemma KeepsUp(clock: Clock)
      requires Valid(clock)
      ensures limiter.bytesPerSec > 0 ==> AtMost(limiter.bytesPerSec, account.start.lastCheck, passed, clock.now)
    {
      if limiter.bytesPerSec > 0 {
        ChargedSoFar(limiter.bytesPerSec, account, limiter.View(), passed, clock.now);
      }
    }
  }
}
