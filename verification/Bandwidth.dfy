/** The token bucket limiter: `internal/bandwidth/bandwidth.go`. Tokens and seconds are reals. */
module Bandwidth {

  // ----- The locked section of waitChunk

  datatype Bucket = Bucket(tokens: real, lastCheck: real)

  /** One pass through the loop body: a caller wanting `n` bytes looks at the clock. */
  datatype Poll = Poll(who: string, n: nat, now: real)

  function Refilled(rate: nat, b: Bucket, now: real): real {
    b.tokens + (now - b.lastCheck) * rate as real
  }

  function Clamped(rate: nat, b: Bucket, now: real): real {
    if Refilled(rate, b, now) > rate as real then rate as real else Refilled(rate, b, now)
  }

  predicate Grants(rate: nat, b: Bucket, p: Poll) {
    Clamped(rate, b, p.now) >= p.n as real
  }

  function After(rate: nat, b: Bucket, p: Poll): Bucket {
    Bucket(Clamped(rate, b, p.now) - if Grants(rate, b, p) then p.n as real else 0.0, p.now)
  }

  /** What a look at the bucket finds: the old tokens and the refill, up to a full bucket. */
  function Found(rate: nat, tokens: real, elapsed: real): real {
    if tokens + elapsed * rate as real <= rate as real then tokens + elapsed * rate as real else rate as real
  }

  /** A poll is granted exactly if what it finds suffices, and leaves the rest: below the brim no token is lost. */
  lemma PollTakesOnlyItsBytes(rate: nat, b: Bucket, p: Poll)
    ensures var found := Found(rate, b.tokens, p.now - b.lastCheck);
      && (Grants(rate, b, p) <==> found >= p.n as real)
      && After(rate, b, p) == Bucket(if found >= p.n as real then found - p.n as real else found, p.now)
  {
  }

  // ----- Runs: polls of any number of callers, in the order they hold the lock

  function RunPolls(rate: nat, b: Bucket, polls: seq<Poll>): Bucket {
    if polls == [] then b else After(rate, RunPolls(rate, b, polls[..|polls| - 1]), polls[|polls| - 1])
  }

  /** The clock never goes back between two holders of the lock. */
  ghost predicate ClockForward(rate: nat, b: Bucket, polls: seq<Poll>) {
    polls == [] ||
    (ClockForward(rate, b, polls[..|polls| - 1])
     && polls[|polls| - 1].now >= RunPolls(rate, b, polls[..|polls| - 1]).lastCheck)
  }

  /** Bytes granted to polls made at times in [lo, hi]. */
  function GrantedIn(rate: nat, b: Bucket, polls: seq<Poll>, lo: real, hi: real): nat {
    if polls == [] then 0
    else
      var before, p := polls[..|polls| - 1], polls[|polls| - 1];
      GrantedIn(rate, b, before, lo, hi)
        + if lo <= p.now <= hi && Grants(rate, RunPolls(rate, b, before), p) then p.n else 0
  }

  ghost predicate InRange(rate: nat, b: Bucket) {
    0.0 <= b.tokens <= rate as real
  }

  lemma RefillNotNegative(rate: nat, elapsed: real)
    requires elapsed >= 0.0
    ensures elapsed * rate as real >= 0.0
  {
  }

  lemma AfterInRange(rate: nat, b: Bucket, p: Poll)
    requires InRange(rate, b) && p.now >= b.lastCheck
    ensures InRange(rate, After(rate, b, p))
  {
    RefillNotNegative(rate, p.now - b.lastCheck);
  }

  /** Tokens stay between zero and the rate in every run. */
  lemma {:induction false} TokensInRange(rate: nat, b: Bucket, polls: seq<Poll>)
    requires InRange(rate, b) && ClockForward(rate, b, polls)
    ensures InRange(rate, RunPolls(rate, b, polls))
  {
    if polls != [] {
      TokensInRange(rate, b, polls[..|polls| - 1]);
      AfterInRange(rate, RunPolls(rate, b, polls[..|polls| - 1]), polls[|polls| - 1]);
    }
  }

  /** Where a window [lo, hi] stands: not begun, under way, or over. */
  ghost predicate WindowBound(rate: nat, b: Bucket, granted: nat, lo: real, hi: real) {
    var r := rate as real;
    if b.lastCheck < lo then granted == 0
    else if b.lastCheck <= hi then granted as real + b.tokens <= r + (b.lastCheck - lo) * r
    else granted as real <= r + (hi - lo) * r
  }

  lemma Spread(x: real, y: real, z: real, r: real)
    ensures (y - x) * r + (z - y) * r == (z - x) * r
  {
  }

  lemma WindowStep(rate: nat, b: Bucket, p: Poll, granted: nat, lo: real, hi: real)
    requires lo <= hi && InRange(rate, b) && p.now >= b.lastCheck
    requires WindowBound(rate, b, granted, lo, hi)
    ensures WindowBound(rate, After(rate, b, p),
                        granted + if lo <= p.now <= hi && Grants(rate, b, p) then p.n else 0, lo, hi)
  {
    if lo <= p.now <= hi {
      WindowInside(rate, b, p, granted, lo, hi);
    } else if hi < p.now {
      WindowPast(rate, b, granted, lo, hi);
    }
  }

  /** The refill spends the window's allowance no faster than time passes. */
  lemma WindowInside(rate: nat, b: Bucket, p: Poll, granted: nat, lo: real, hi: real)
    requires lo <= p.now <= hi && InRange(rate, b) && p.now >= b.lastCheck
    requires WindowBound(rate, b, granted, lo, hi)
    ensures granted as real + Clamped(rate, b, p.now) <= rate as real + (p.now - lo) * rate as real
  {
    var r := rate as real;
    if b.lastCheck < lo {
      RefillNotNegative(rate, p.now - lo);
    } else {
      var before, refill, now := (b.lastCheck - lo) * r, (p.now - b.lastCheck) * r, (p.now - lo) * r;
      Spread(lo, b.lastCheck, p.now, r);
      assert before + refill == now;
      assert granted as real + b.tokens <= r + before;
      assert Clamped(rate, b, p.now) <= b.tokens + refill;
    }
  }

  /** Once the window is over its bound stands. */
  lemma WindowPast(rate: nat, b: Bucket, granted: nat, lo: real, hi: real)
    requires lo <= hi && InRange(rate, b) && WindowBound(rate, b, granted, lo, hi)
    ensures granted as real <= rate as real + (hi - lo) * rate as real
  {
    var r := rate as real;
    RefillNotNegative(rate, hi - lo);
    if lo <= b.lastCheck <= hi {
      var before, rest, whole := (b.lastCheck - lo) * r, (hi - b.lastCheck) * r, (hi - lo) * r;
      RefillNotNegative(rate, hi - b.lastCheck);
      Spread(lo, b.lastCheck, hi, r);
      assert before + rest == whole;
      assert granted as real + b.tokens <= r + before;
    }
  }

  lemma WindowStart(rate: nat, b: Bucket, lo: real, hi: real)
    requires InRange(rate, b) && lo <= hi
    ensures WindowBound(rate, b, 0, lo, hi)
  {
    if lo <= b.lastCheck <= hi {
      RefillNotNegative(rate, b.lastCheck - lo);
    } else if hi < b.lastCheck {
      RefillNotNegative(rate, hi - lo);
      assert 0.0 <= rate as real + (hi - lo) * rate as real;
    }
  }

  lemma {:induction false} WindowHolds(rate: nat, b: Bucket, polls: seq<Poll>, lo: real, hi: real)
    requires InRange(rate, b) && ClockForward(rate, b, polls) && lo <= hi
    ensures WindowBound(rate, RunPolls(rate, b, polls), GrantedIn(rate, b, polls, lo, hi), lo, hi)
  {
    if polls == [] {
      WindowStart(rate, b, lo, hi);
    } else {
      var before, p := polls[..|polls| - 1], polls[|polls| - 1];
      WindowHolds(rate, b, before, lo, hi);
      TokensInRange(rate, b, before);
      WindowStep(rate, RunPolls(rate, b, before), p, GrantedIn(rate, b, before, lo, hi), lo, hi);
    }
  }

  /** In every run of interleaved callers and every time window [lo, hi], the bytes granted are at most
      one full bucket more than the rate times the length of the window. */
  lemma BytesPerWindow(rate: nat, b: Bucket, polls: seq<Poll>, lo: real, hi: real)
    requires InRange(rate, b) && ClockForward(rate, b, polls) && lo <= hi
    ensures GrantedIn(rate, b, polls, lo, hi) as real <= rate as real + (hi - lo) * rate as real
  {
    WindowHolds(rate, b, polls, lo, hi);
    TokensInRange(rate, b, polls);
    WindowPast(rate, RunPolls(rate, b, polls), GrantedIn(rate, b, polls, lo, hi), lo, hi);
  }

  // ----- The ledger

  /** Bytes granted to one caller. */
  function GrantedTo(rate: nat, b: Bucket, polls: seq<Poll>, who: string): nat {
    if polls == [] then 0
    else
      var before, p := polls[..|polls| - 1], polls[|polls| - 1];
      GrantedTo(rate, b, before, who)
        + if p.who == who && Grants(rate, RunPolls(rate, b, before), p) then p.n else 0
  }

  function GrantedToAll(rate: nat, b: Bucket, polls: seq<Poll>): nat {
    if polls == [] then 0
    else
      var before, p := polls[..|polls| - 1], polls[|polls| - 1];
      GrantedToAll(rate, b, before) + if Grants(rate, RunPolls(rate, b, before), p) then p.n else 0
  }

  /** Tokens that ran over the rim of the bucket. */
  function Overflow(rate: nat, b: Bucket, polls: seq<Poll>): real {
    if polls == [] then 0.0
    else
      var before, p := polls[..|polls| - 1], polls[|polls| - 1];
      var at := RunPolls(rate, b, before);
      Overflow(rate, b, before) + (Refilled(rate, at, p.now) - Clamped(rate, at, p.now))
  }

  /** The books of a run: the bucket holds the start, plus the refill over the time passed, less the
      overflow and what was granted. */
  ghost predicate Balanced(rate: nat, b: Bucket, end: Bucket, overflow: real, granted: nat) {
    end.tokens == b.tokens + (end.lastCheck - b.lastCheck) * rate as real - overflow - granted as real
  }

  lemma BalancedStep(rate: nat, b: Bucket, at: Bucket, p: Poll, overflow: real, granted: nat)
    requires Balanced(rate, b, at, overflow, granted)
    ensures Balanced(rate, b, After(rate, at, p), overflow + (Refilled(rate, at, p.now) - Clamped(rate, at, p.now)),
                     granted + if Grants(rate, at, p) then p.n else 0)
  {
    Spread(b.lastCheck, at.lastCheck, p.now, rate as real);
  }

  /** No token appears or vanishes in any run. */
  lemma {:induction false} TokenLedger(rate: nat, b: Bucket, polls: seq<Poll>)
    ensures Balanced(rate, b, RunPolls(rate, b, polls), Overflow(rate, b, polls), GrantedToAll(rate, b, polls))
  {
    if polls != [] {
      var before, p := polls[..|polls| - 1], polls[|polls| - 1];
      TokenLedger(rate, b, before);
      BalancedStep(rate, b, RunPolls(rate, b, before), p, Overflow(rate, b, before), GrantedToAll(rate, b, before));
    }
  }

  /** No poll of the run finds more than a full bucket. */
  ghost predicate NeverOverfull(rate: nat, b: Bucket, polls: seq<Poll>) {
    polls == [] ||
    (NeverOverfull(rate, b, polls[..|polls| - 1])
     && var at, p := RunPolls(rate, b, polls[..|polls| - 1]), polls[|polls| - 1];
        at.tokens + (p.now - at.lastCheck) * rate as real <= rate as real)
  }

  /** Tokens are lost exactly in runs that fill the bucket beyond its brim. */
  lemma {:induction false} OverflowOnlyWhenFull(rate: nat, b: Bucket, polls: seq<Poll>)
    ensures Overflow(rate, b, polls) >= 0.0
    ensures Overflow(rate, b, polls) == 0.0 <==> NeverOverfull(rate, b, polls)
  {
    if polls != [] {
      OverflowOnlyWhenFull(rate, b, polls[..|polls| - 1]);
    }
  }

  /** A run that never does so holds every token it was refilled with and did not grant. */
  lemma NothingIsLost(rate: nat, b: Bucket, polls: seq<Poll>)
    requires NeverOverfull(rate, b, polls)
    ensures Balanced(rate, b, RunPolls(rate, b, polls), 0.0, GrantedToAll(rate, b, polls))
  {
    TokenLedger(rate, b, polls);
    OverflowOnlyWhenFull(rate, b, polls);
  }

  // ----- Many callers inside WaitN

  /** Callers with bytes still to be granted, and what each has asked for in all. */
  datatype Callers = Callers(rem: map<string, nat>, asked: map<string, nat>)

  datatype Step = Enter(who: string, n: nat) | Check(who: string, now: real)

  function Rem(c: Callers, who: string): nat {
    if who in c.rem then c.rem[who] else 0
  }

  function Asked(c: Callers, who: string): nat {
    if who in c.asked then c.asked[who] else 0
  }

  /** The piece `WaitN` asks for next: what is left, but no more than a full bucket. */
  function Piece(rate: nat, rem: nat): nat {
    if rem > rate then rate else rem
  }

  /** The piece is all that is left or a full bucket, whichever is less. */
  lemma PieceIsTheLess(rate: nat, rem: nat)
    ensures var piece := Piece(rate, rem); piece <= rem && piece <= rate && (piece == rem || piece == rate)
  {
  }

  datatype State = State(bucket: Bucket, callers: Callers, polls: seq<Poll>)

  /** A caller enters `WaitN` when it is not inside, or takes one pass through its loop when it is. */
  function Next(rate: nat, s: State, a: Step): State {
    match a
    case Enter(who, n) =>
      if Rem(s.callers, who) > 0 then s
      else s.(callers := Callers(s.callers.rem[who := n], s.callers.asked[who := Asked(s.callers, who) + n]))
    case Check(who, now) =>
      var rem := Rem(s.callers, who);
      if rem == 0 || now < s.bucket.lastCheck then s
      else
        var p := Poll(who, Piece(rate, rem), now);
        State(After(rate, s.bucket, p),
              if Grants(rate, s.bucket, p) then s.callers.(rem := s.callers.rem[who := rem - p.n]) else s.callers,
              s.polls + [p])
  }

  function RunSteps(rate: nat, b: Bucket, steps: seq<Step>): State {
    if steps == [] then State(b, Callers(map[], map[]), [])
    else Next(rate, RunSteps(rate, b, steps[..|steps| - 1]), steps[|steps| - 1])
  }

  /** The caller's account fits the polls made, and the bucket is where they lead. */
  ghost predicate Accounted(rate: nat, b: Bucket, s: State, who: string) {
    && GrantedTo(rate, b, s.polls, who) + Rem(s.callers, who) == Asked(s.callers, who)
    && s.bucket == RunPolls(rate, b, s.polls)
    && ClockForward(rate, b, s.polls)
    && forall i :: 0 <= i < |s.polls| ==> s.polls[i].n <= rate
  }

  lemma OneMorePoll(rate: nat, b: Bucket, polls: seq<Poll>, p: Poll, who: string)
    requires ClockForward(rate, b, polls) && p.now >= RunPolls(rate, b, polls).lastCheck
    ensures var at, more := RunPolls(rate, b, polls), polls + [p];
      && RunPolls(rate, b, more) == After(rate, at, p) && ClockForward(rate, b, more)
      && GrantedTo(rate, b, more, who)
           == GrantedTo(rate, b, polls, who) + if p.who == who && Grants(rate, at, p) then p.n else 0
  {
    assert (polls + [p])[..|polls + [p]| - 1] == polls;
  }

  lemma AccountedStep(rate: nat, b: Bucket, s: State, a: Step, who: string)
    requires rate > 0 && Accounted(rate, b, s, who)
    ensures Accounted(rate, b, Next(rate, s, a), who)
  {
    if a.Check? && Rem(s.callers, a.who) > 0 && a.now >= s.bucket.lastCheck {
      var p := Poll(a.who, Piece(rate, Rem(s.callers, a.who)), a.now);
      OneMorePoll(rate, b, s.polls, p, who);
    }
  }

  /** However the callers interleave, each is granted exactly what it asked for less what it still waits
      for, in pieces no larger than the bucket, and the window bound applies to the whole. */
  lemma {:induction false} InterleavedCallers(rate: nat, b: Bucket, steps: seq<Step>, who: string)
    requires rate > 0 && InRange(rate, b)
    ensures Accounted(rate, b, RunSteps(rate, b, steps), who)
  {
    if steps != [] {
      var front := steps[..|steps| - 1];
      InterleavedCallers(rate, b, front, who);
      AccountedStep(rate, b, RunSteps(rate, b, front), steps[|steps| - 1], who);
    }
  }

  // ----- The limiter

  /** Wall time: reading it and sleeping may take any time, sleeping at least what was asked. */
  class Clock {
    var now: real

    constructor (now: real)
      ensures this.now == now
    {
      this.now := now;
    }

    method Now() returns (t: real)
      modifies this
      ensures t == now && now >= old(now)
    {
      var passed: real :| passed >= 0.0;
      now := now + passed;
      t := now;
    }

    method Sleep(seconds: real)
      modifies this
      ensures now >= old(now) + seconds && now >= old(now)
    {
      var late: real :| late >= 0.0;
      now := now + late + if seconds > 0.0 then seconds else 0.0;
    }
  }

  class Limiter {
    const bytesPerSec: int
    var tokens: real
    var lastCheck: real

    ghost predicate Valid(clock: Clock)
      reads this, clock
    {
      bytesPerSec > 0 ==> InRange(bytesPerSec, View()) && lastCheck <= clock.now
    }

    ghost function View(): Bucket
      reads this
    {
      Bucket(tokens, lastCheck)
    }

    constructor (bytesPerSec: int, clock: Clock)
      ensures Valid(clock) && this.bytesPerSec == bytesPerSec
      ensures View() == Bucket(bytesPerSec as real, clock.now)
    {
      this.bytesPerSec := bytesPerSec;
      tokens, lastCheck := bytesPerSec as real, clock.now;
    }

    /** The section of `waitChunk` under the lock: refill, then take `n` tokens or say how long to sleep. */
    method Check(n: nat, clock: Clock, ghost who: string) returns (granted: bool, sleepSec: real, ghost p: Poll)
      requires bytesPerSec > 0 && Valid(clock)
      modifies this`tokens, this`lastCheck, clock
      ensures Valid(clock) && clock.now >= old(clock.now) && lastCheck == clock.now
      ensures p == Poll(who, n, lastCheck) && p.now >= old(lastCheck)
      ensures View() == After(bytesPerSec, old(View()), p)
      ensures granted <==> Grants(bytesPerSec, old(View()), p)
      ensures Enough(bytesPerSec, old(View()), old(clock.now), n) ==> granted
      ensures var found := Found(bytesPerSec, old(tokens), clock.now - old(lastCheck));
        && (granted <==> found >= n as real)
        && tokens == if granted then found - n as real else found
      ensures !granted ==> sleepSec == (n as real - tokens) / bytesPerSec as real
    {
      ghost var b, woke := View(), clock.now;
      var now := clock.Now();
      p := Poll(who, n, now);
      AfterInRange(bytesPerSec, b, p);
      PollTakesOnlyItsBytes(bytesPerSec, b, p);
      EnoughIsGranted(bytesPerSec, b, woke, p);
      var elapsed := now - lastCheck;
      lastCheck := now;
      tokens := tokens + elapsed * bytesPerSec as real;
      assert tokens == Refilled(bytesPerSec, b, now);
      if tokens > bytesPerSec as real {
        tokens := bytesPerSec as real;
      }
      assert tokens == Clamped(bytesPerSec, b, now);
      granted := tokens >= n as real;
      sleepSec := 0.0;
      if granted {
        tokens := tokens - n as real;
      } else {
        sleepSec := (n as real - tokens) / bytesPerSec as real;
      }
    }

    /** The body of the loop in `waitChunk`: a look at the bucket, then a sleep if it does not suffice. */
    method Turn(n: nat, clock: Clock, ghost who: string) returns (granted: bool, ghost p: Poll)
      requires 0 < n <= bytesPerSec && Valid(clock)
      modifies this`tokens, this`lastCheck, clock
      ensures Valid(clock)
      ensures p.who == who && p.n == n && p.now >= old(lastCheck)
      ensures View() == After(bytesPerSec, old(View()), p)
      ensures granted <==> Grants(bytesPerSec, old(View()), p)
      ensures Enough(bytesPerSec, old(View()), old(clock.now), n) ==> granted
      ensures granted || Enough(bytesPerSec, View(), clock.now, n)
    {
      var sleepSec;
      granted, sleepSec, p := Check(n, clock, who);
      if !granted {
        clock.Sleep(sleepSec);
        SleepSuffices(bytesPerSec, View(), clock.now, n, sleepSec);
      }
    }

    /** `waitChunk` for the only caller: at most two polls, the second of which is granted. */
    method WaitChunk(n: nat, clock: Clock, ghost who: string) returns (ghost polls: seq<Poll>)
      requires 0 < n <= bytesPerSec && Valid(clock)
      modifies this`tokens, this`lastCheck, clock
      ensures Valid(clock)
      ensures Charged(bytesPerSec, old(View()), polls, who, n, View()) && 1 <= |polls| <= 2
      ensures Sizes(bytesPerSec, old(View()), polls) == [n]
    {
      polls := [];
      var granted := false;
      while !granted
        invariant Valid(clock) && |polls| <= if granted then 2 else 1
        invariant granted ==> |polls| >= 1
        invariant Charged(bytesPerSec, old(View()), polls, who, if granted then n else 0, View())
        invariant Sizes(bytesPerSec, old(View()), polls) == if granted then [n] else []
        invariant |polls| == 1 && !granted ==> Enough(bytesPerSec, View(), clock.now, n)
        decreases 2 - |polls|
      {
        ghost var p, b := Poll(who, n, 0.0), View();
        granted, p := Turn(n, clock, who);
        ChargedStep(bytesPerSec, old(View()), polls, who, 0, b, p);
        SizesStep(bytesPerSec, old(View()), polls, p);
        polls := polls + [p];
      }
    }

    /** `WaitN` for the only caller: nothing happens without a limit or without bytes; otherwise exactly
        `n` tokens are charged, in pieces no larger than the bucket. */
    method WaitN(n: int, clock: Clock, ghost who: string) returns (ghost polls: seq<Poll>)
      requires Valid(clock)
      modifies this`tokens, this`lastCheck, clock
      ensures Valid(clock)
      ensures bytesPerSec <= 0 || n <= 0 ==> polls == [] && View() == old(View())
      ensures bytesPerSec > 0 && n > 0 ==>
        && Charged(bytesPerSec, old(View()), polls, who, n, View())
        && ArePieces(Sizes(bytesPerSec, old(View()), polls), n, bytesPerSec)
    {
      polls := [];
      if bytesPerSec <= 0 || n <= 0 {
        return;
      }
      ghost var start := View();
      var rem := n;
      while rem > 0
        invariant 0 <= rem <= n && Valid(clock)
        invariant Charged(bytesPerSec, start, polls, who, n - rem, View())
        invariant ArePieces(Sizes(bytesPerSec, start, polls), n - rem, bytesPerSec)
        invariant rem > 0 ==> AllFull(Sizes(bytesPerSec, start, polls), bytesPerSec)
      {
        var chunk := rem;
        if chunk > bytesPerSec {
          chunk := bytesPerSec;
        }
        ghost var b := View();
        ghost var more := WaitChunk(chunk, clock, who);
        PieceStep(bytesPerSec, start, polls, who, n - rem, b, more, chunk, View());
        polls := polls + more;
        rem := rem - chunk;
      }
    }
  }

  /** The polls lead from `start` to `end` and charge the caller `n` bytes, no piece above the bucket size. */
  ghost predicate Charged(rate: nat, start: Bucket, polls: seq<Poll>, who: string, n: nat, end: Bucket) {
    && end == RunPolls(rate, start, polls) && ClockForward(rate, start, polls)
    && GrantedTo(rate, start, polls, who) == n
    && forall i :: 0 <= i < |polls| ==> polls[i].who == who && polls[i].n <= rate
  }

  /** The sizes of the granted pieces, in order. */
  function Sizes(rate: nat, b: Bucket, polls: seq<Poll>): seq<nat> {
    if polls == [] then []
    else
      var before, p := polls[..|polls| - 1], polls[|polls| - 1];
      Sizes(rate, b, before) + if Grants(rate, RunPolls(rate, b, before), p) then [p.n] else []
  }

  ghost predicate AllFull(sizes: seq<nat>, rate: nat) {
    forall i :: 0 <= i < |sizes| ==> sizes[i] == rate
  }

  /** Full buckets, the last one possibly less, `n` bytes in all. */
  ghost predicate ArePieces(sizes: seq<nat>, n: int, rate: nat) {
    && (sizes == [] ==> n == 0)
    && (sizes != [] ==>
         && AllFull(sizes[..|sizes| - 1], rate) && 0 < sizes[|sizes| - 1] <= rate
         && n == (|sizes| - 1) * rate + sizes[|sizes| - 1])
  }

  lemma OneMorePiece(sizes: seq<nat>, n: int, rate: nat, piece: nat)
    requires ArePieces(sizes, n, rate) && AllFull(sizes, rate) && 0 < piece <= rate
    ensures ArePieces(sizes + [piece], n + piece, rate)
    ensures piece == rate ==> AllFull(sizes + [piece], rate)
  {
    assert (sizes + [piece])[..|sizes|] == sizes;
    if sizes != [] {
      assert n == |sizes| * rate;
    }
  }

  lemma SizesStep(rate: nat, b: Bucket, polls: seq<Poll>, p: Poll)
    ensures Sizes(rate, b, polls + [p])
         == Sizes(rate, b, polls) + if Grants(rate, RunPolls(rate, b, polls), p) then [p.n] else []
  {
    assert (polls + [p])[..|polls + [p]| - 1] == polls;
  }

  lemma {:induction false} SizesAppend(rate: nat, b: Bucket, polls: seq<Poll>, more: seq<Poll>)
    ensures Sizes(rate, b, polls + more) == Sizes(rate, b, polls) + Sizes(rate, RunPolls(rate, b, polls), more)
    decreases |more|
  {
    if more == [] {
      assert polls + more == polls;
    } else {
      var front, p := more[..|more| - 1], more[|more| - 1];
      SizesAppend(rate, b, polls, front);
      RunPollsAppend(rate, b, polls, front);
      SizesStep(rate, b, polls + front, p);
      assert polls + front + [p] == polls + more;
    }
  }

  lemma {:induction false} RunPollsAppend(rate: nat, b: Bucket, polls: seq<Poll>, more: seq<Poll>)
    ensures RunPolls(rate, b, polls + more) == RunPolls(rate, RunPolls(rate, b, polls), more)
    decreases |more|
  {
    if more == [] {
      assert polls + more == polls;
    } else {
      RunPollsAppend(rate, b, polls, more[..|more| - 1]);
      assert (polls + more)[..|polls + more| - 1] == polls + more[..|more| - 1];
    }
  }

  /** Another piece in `WaitN`: the bucket was at `b`, with `m` bytes granted. */
  lemma PieceStep(rate: nat, start: Bucket, polls: seq<Poll>, who: string, m: nat, b: Bucket, more: seq<Poll>,
                  piece: nat, end: Bucket)
    requires Charged(rate, start, polls, who, m, b) && Charged(rate, b, more, who, piece, end)
    requires ArePieces(Sizes(rate, start, polls), m, rate) && AllFull(Sizes(rate, start, polls), rate)
    requires Sizes(rate, b, more) == [piece] && 0 < piece <= rate
    ensures Charged(rate, start, polls + more, who, m + piece, end)
    ensures ArePieces(Sizes(rate, start, polls + more), m + piece, rate)
    ensures piece == rate ==> AllFull(Sizes(rate, start, polls + more), rate)
  {
    ChargedAppend(rate, start, polls, who, m, b, more, piece, end);
    SizesAppend(rate, start, polls, more);
    OneMorePiece(Sizes(rate, start, polls), m, rate, piece);
  }

  lemma ChargedStep(rate: nat, start: Bucket, polls: seq<Poll>, who: string, n: nat, b: Bucket, p: Poll)
    requires Charged(rate, start, polls, who, n, b) && p.who == who && p.n <= rate && p.now >= b.lastCheck
    ensures Charged(rate, start, polls + [p], who, n + if Grants(rate, b, p) then p.n else 0, After(rate, b, p))
  {
    assert (polls + [p])[..|polls + [p]| - 1] == polls;
  }

  lemma {:induction false} ChargedAppend(rate: nat, start: Bucket, polls: seq<Poll>, who: string, n: nat, b: Bucket,
                                         more: seq<Poll>, m: nat, end: Bucket)
    requires Charged(rate, start, polls, who, n, b) && Charged(rate, b, more, who, m, end)
    ensures Charged(rate, start, polls + more, who, n + m, end)
    decreases |more|
  {
    if more == [] {
      assert polls + more == polls;
    } else {
      var front, p := more[..|more| - 1], more[|more| - 1];
      var at := RunPolls(rate, b, front);
      ChargedAppend(rate, start, polls, who, n, b, front, GrantedTo(rate, b, front, who), at);
      ChargedStep(rate, start, polls + front, who, n + GrantedTo(rate, b, front, who), at, p);
      assert polls + front + [p] == polls + more;
    }
  }

  /** At time `t` the bucket, refilled, holds the `n` tokens of a piece that fits it. */
  ghost predicate Enough(rate: nat, b: Bucket, t: real, n: nat) {
    n <= rate && Refilled(rate, b, t) >= n as real
  }

  lemma EnoughIsGranted(rate: nat, b: Bucket, t: real, p: Poll)
    requires t <= p.now
    ensures Enough(rate, b, t, p.n) ==> Grants(rate, b, p)
  {
    RefillNotNegative(rate, p.now - t);
    Spread(b.lastCheck, t, p.now, rate as real);
  }

  /** Sleeping for the tokens that are missing brings them. */
  lemma SleepSuffices(rate: nat, b: Bucket, t: real, n: nat, seconds: real)
    requires 0 < n <= rate && seconds == (n as real - b.tokens) / rate as real && t >= b.lastCheck + seconds
    ensures Enough(rate, b, t, n)
  {
    var r := rate as real;
    assert seconds * r == n as real - b.tokens;
    RefillNotNegative(rate, t - b.lastCheck - seconds);
    assert (t - b.lastCheck) * r == seconds * r + (t - b.lastCheck - seconds) * r;
  }
}
