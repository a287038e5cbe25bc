/** The pure part of parameter backup: when a push triggers a backup, which
    file it writes, and which counters the backups of the first `n` pushes
    carry. */
module Checkpoint {
  import opened Int32
  import Decimal

  /** One backup file written by `backup_param`: its path, the counter that
      named it, the shard indices in the order they were written, and the
      table contents they were written from. */
  datatype Backup<K, V> = Backup(path: string, counter: int32, shards: seq<nat>, snapshot: map<K, V>)

  /** The trigger that follows `push_counter++`: a positive period that
      divides the counter, computed with C++'s `%`. */
  function ShouldBackup(counter: int32, period: int32): (b: bool)
    ensures b <==> period > 0 && counter as int % period as int == 0
  {
    period > 0 && CRem(counter as int, period as int) == 0
  }

  /** What `%s` prints of `s.c_str()`: the characters before the first NUL. */
  function CStr(s: string): (r: string)
    ensures r <= s && '\0' !in r
    ensures r == s || s[|r|] == '\0'
    decreases |s|
  {
    if s == [] || s[0] == '\0' then [] else [s[0]] + CStr(s[1..])
  }

  /** `format_string(path, "%s/param-%d.txt", root.c_str(), counter)`: the
      root up to its first NUL, `/param-`, the counter's numeral, `.txt`. */
  function BackupPath(root: string, counter: int32): (p: string)
    ensures var pre := CStr(root) + "/param-";
            |pre| + 4 < |p| && p[..|pre|] == pre && p[|p| - 4..] == ".txt"
            && Decimal.IsNumeral(p[|pre|..|p| - 4]) && Decimal.Canonical(p[|pre|..|p| - 4])
            && Decimal.IntValue(p[|pre|..|p| - 4]) == counter as int
  {
    var pre, num := CStr(root) + "/param-", Decimal.IntToDecimal(counter as int);
    var p := pre + num + ".txt";
    assert p[|pre|..|p| - 4] == num;
    Decimal.IntRoundTrip(counter as int);
    p
  }

  /** Two backups under one root go to the same file only if they carry the
      same counter. */
  lemma BackupPathInjective(root: string, a: int32, b: int32)
    requires BackupPath(root, a) == BackupPath(root, b)
    ensures a == b
  {
  }

  /** The shard indices `0 .. shard_num() - 1`: each shard once, in
      increasing order. */
  function ShardOrder(n: nat): (s: seq<nat>)
    ensures |s| == n
    ensures forall i, j :: 0 <= i < j < |s| ==> s[i] < s[j]
    ensures forall i :: 0 <= i < |s| ==> s[i] < n
  {
    seq(n, i => i)
  }

  /** The counters of the backups the first `n` push requests trigger, in
      order: push number `h` leaves the counter at `Wrap(h)`. */
  function BackupCounters(n: nat, period: int32): (due: seq<int32>)
    ensures |due| <= n
    ensures forall j :: 0 <= j < |due| ==> ShouldBackup(due[j], period)
    decreases n
  {
    if n == 0 then []
    else BackupCounters(n - 1, period)
         + (if ShouldBackup(Wrap(n), period) then [Wrap(n)] else [])
  }

  /** `backups` are exactly the files the first `n` pushes were due to
      write: one per due counter, in order, each at the path named after
      its counter and holding every shard in index order. */
  ghost predicate BackupsDue<K, V>(backups: seq<Backup<K, V>>, n: nat, period: int32, root: string, shardNum: nat)
  {
    var due := BackupCounters(n, period);
    |backups| == |due|
    && forall j :: 0 <= j < |backups| ==>
         backups[j].counter == due[j]
         && backups[j].path == BackupPath(root, due[j])
         && backups[j].shards == ShardOrder(shardNum)
  }

  /** One more push keeps the backups written equal to those due: a file is
      added exactly when the new counter is due for one. */
  lemma BackupsDueStep<K, V>(backups: seq<Backup<K, V>>, n: nat, period: int32, root: string, shardNum: nat,
                             snapshot: map<K, V>)
    requires BackupsDue(backups, n, period, root, shardNum)
    ensures var c := Wrap(n + 1);
            BackupsDue(backups + (if ShouldBackup(c, period)
                                  then [Backup(BackupPath(root, c), c, ShardOrder(shardNum), snapshot)]
                                  else []),
                       n + 1, period, root, shardNum)
  {
  }

  /** With a period of zero or less no push ever triggers a backup. */
  lemma {:induction false} NoBackupWhenDisabled(n: nat, period: int32)
    requires period <= 0
    ensures BackupCounters(n, period) == []
    decreases n
  {
    if n > 0 {
      NoBackupWhenDisabled(n - 1, period);
    }
  }

  /** With a positive period, and before the counter overflows, the first
      `n` pushes trigger `n / period` backups, the j-th of them at counter
      `(j + 1) * period`. */
  lemma {:induction false} BackupsOnPeriod(n: nat, period: int32)
    requires period > 0 && n <= INT_MAX
    ensures |BackupCounters(n, period)| == n / period as int
    ensures forall j :: 0 <= j < |BackupCounters(n, period)| ==>
              BackupCounters(n, period)[j] as int == (j + 1) * period as int
    decreases n
  {
    if n > 0 {
      var p := period as int;
      var prev := BackupCounters(n - 1, period);
      BackupsOnPeriod(n - 1, period);
      DivStep(n, p);
      assert Wrap(n) as int == n;
      if n % p == 0 {
        assert BackupCounters(n, period) == prev + [Wrap(n)];
        DivExact(n, p);
      } else {
        assert BackupCounters(n, period) == prev;
      }
    }
  }

  lemma DivExact(n: int, p: int)
    requires p > 0 && n % p == 0
    ensures n == (n / p) * p
  {
  }

  /** Counting one more push adds one to `n / p` exactly when `p` divides it. */
  lemma DivStep(n: int, p: int)
    requires p > 0 && n >= 1
    ensures n / p == (n - 1) / p + (if n % p == 0 then 1 else 0)
  {
    var q, r := (n - 1) / p, (n - 1) % p;
    if r == p - 1 {
      assert n == (q + 1) * p;
      DivUnique(n, p, q + 1, 0);
    } else {
      DivUnique(n, p, q, r + 1);
    }
  }

  /** The scenario of a period of 2 and three pushes: one backup, after the
      second push, named with counter 2. */
  lemma PeriodTwoThreePushes(root: string)
    ensures BackupCounters(3, 2) == [2]
    ensures BackupPath(root, 2) == CStr(root) + "/param-2.txt"
  {
    assert BackupCounters(3, 2) == [2] by {
      assert Wrap(1) == 1 && Wrap(2) == 2 && Wrap(3) == 3;
      assert !ShouldBackup(1, 2) && ShouldBackup(2, 2) && !ShouldBackup(3, 2);
    }
    assert BackupPath(root, 2) == CStr(root) + "/param-2.txt" by {
      assert Decimal.IntToDecimal(2) == "2";
    }
  }
}
