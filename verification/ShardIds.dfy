/** The shard-id format of `cmd/aldea/put.go`: `<file>-c<chunk>-s<shard>`. */
module ShardIds {

  function Digit(d: nat): char
    requires d < 10
  {
    '0' + d as char
  }

  function Decimal(n: nat): string {
    if n < 10 then [Digit(n)] else Decimal(n / 10) + [Digit(n % 10)]
  }

  function ShardId(fileID: string, chunk: nat, shard: nat): string {
    fileID + "-c" + Decimal(chunk) + "-s" + Decimal(shard)
  }

  ghost predicate AllDigits(s: string) {
    forall i :: 0 <= i < |s| ==> '0' <= s[i] <= '9'
  }

  lemma {:induction false} DecimalDigits(n: nat)
    ensures AllDigits(Decimal(n)) && Decimal(n) != []
  {
    if n >= 10 {
      DecimalDigits(n / 10);
    }
  }

  lemma {:induction false} DecimalInjective(a: nat, b: nat)
    requires Decimal(a) == Decimal(b)
    ensures a == b
  {
    var s := Decimal(a);
    assert s[|s| - 1] == Digit(a % 10) == Digit(b % 10);
    if a >= 10 && b >= 10 {
      assert s[..|s| - 1] == Decimal(a / 10) == Decimal(b / 10);
      DecimalInjective(a / 10, b / 10);
    }
  }

  /** A non-digit before a run of digits marks where the run starts. */
  lemma TagSplits(a: string, d: string, a': string, d': string, tag: string)
    requires |tag| > 0 && !('0' <= tag[|tag| - 1] <= '9')
    requires AllDigits(d) && AllDigits(d')
    requires a + tag + d == a' + tag + d'
    ensures a == a' && d == d'
  {
    var whole := a + tag + d;
    var mark, mark' := |a + tag| - 1, |a' + tag| - 1;
    assert whole[mark] == tag[|tag| - 1] && whole[mark'] == tag[|tag| - 1];
    assert forall i :: mark < i < |whole| ==> whole[i] == d[i - mark - 1];
    assert forall i :: mark' < i < |whole| ==> whole[i] == d'[i - mark' - 1];
    assert mark == mark';
    assert d == whole[mark + 1..] == d';
    assert a == whole[..|a|] == a';
  }

  // ----- Reading an id back

  /** The length of the run of digits at the end. */
  function Tail(s: string): (n: nat)
    ensures n <= |s|
  {
    if s != "" && '0' <= s[|s| - 1] <= '9' then 1 + Tail(s[..|s| - 1]) else 0
  }

  /** The value of a run of digits, read from the left. */
  function ReadFrom(digits: string, value: int): int {
    if digits == "" then value else ReadFrom(digits[1..], 10 * value + digits[0] as int - '0' as int)
  }

  /** Takes a tag of two characters and a number off the end of an id. */
  function TakeOff(s: string, tag: string): (string, int) {
    var mark := |s| - Tail(s);
    if mark >= 2 && s[mark - 2..mark] == tag then (s[..mark - 2], ReadFrom(s[mark..], 0)) else (s, -1)
  }

  lemma {:induction false} TailOfDigits(a: string, d: string)
    requires AllDigits(d) && (a == "" || !('0' <= a[|a| - 1] <= '9'))
    ensures Tail(a + d) == |d|
  {
    if d == "" {
      assert a + d == a;
    } else {
      assert (a + d)[..|a + d| - 1] == a + d[..|d| - 1];
      TailOfDigits(a, d[..|d| - 1]);
    }
  }

  lemma {:induction false} ReadSnoc(digits: string, last: char, value: int)
    ensures ReadFrom(digits + [last], value) == 10 * ReadFrom(digits, value) + last as int - '0' as int
  {
    if digits != "" {
      assert (digits + [last])[1..] == digits[1..] + [last];
      ReadSnoc(digits[1..], last, 10 * value + digits[0] as int - '0' as int);
    }
  }

  /** A number is written in base ten, without leading zeros. */
  lemma {:induction false} DecimalReads(n: nat)
    ensures ReadFrom(Decimal(n), 0) == n
    ensures Decimal(n) != "" && (Decimal(n)[0] == '0' ==> n == 0 && Decimal(n) == "0")
  {
    if n >= 10 {
      DecimalReads(n / 10);
      ReadSnoc(Decimal(n / 10), Digit(n % 10), 0);
      assert Decimal(n)[0] == Decimal(n / 10)[0];
    }
  }

  lemma TakesOff(a: string, tag: string, n: nat)
    requires |tag| == 2 && !('0' <= tag[1] <= '9')
    ensures TakeOff(a + tag + Decimal(n), tag) == (a, n)
  {
    DecimalDigits(n);
    DecimalReads(n);
    TailOfDigits(a + tag, Decimal(n));
    var s := a + tag + Decimal(n);
    assert s[|a|..|a| + 2] == tag && s[..|a|] == a && s[|a| + 2..] == Decimal(n);
  }

  /** An id ends in `-s` and the shard index, and before that in `-c` and the chunk index; the rest is the file id. */
  lemma ShardIdReads(f: string, c: nat, s: nat)
    ensures TakeOff(ShardId(f, c, s), "-s").1 == s
    ensures TakeOff(TakeOff(ShardId(f, c, s), "-s").0, "-c") == (f, c)
  {
    TakesOff(f + "-c" + Decimal(c), "-s", s);
    TakesOff(f, "-c", c);
  }

  /** No two shards share an id, whatever the file ids look like. */
  lemma ShardIdInjective(f: string, c: nat, s: nat, f': string, c': nat, s': nat)
    requires ShardId(f, c, s) == ShardId(f', c', s')
    ensures f == f' && c == c' && s == s'
  {
    DecimalDigits(c);
    DecimalDigits(c');
    DecimalDigits(s);
    DecimalDigits(s');
    TagSplits(f + "-c" + Decimal(c), Decimal(s), f' + "-c" + Decimal(c'), Decimal(s'), "-s");
    TagSplits(f, Decimal(c), f', Decimal(c'), "-c");
    DecimalInjective(c, c');
    DecimalInjective(s, s');
  }
}
