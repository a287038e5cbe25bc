/** The server-side handlers of `server/init.h`: the pull handler answers a
    batch of keys with their values, the push handler applies a batch of
    gradients, counts the request and backs the table up on a period.  The
    sparse table is one object both handlers share; the access agents are
    the functions they are built with. */
module ServerInit {
  import opened Int32
  import opened Container
  import opened Checkpoint

  /** The sparse parameter table, seen as one map from key to value; its
      partition into `shardNum` shards is fixed when it is built. */
  class SparseTable<K(==), V> {
    var data: map<K, V>
    const shardNum: nat

    constructor (shardNum: nat)
      ensures data == map[] && this.shardNum == shardNum
    {
      data := map[];
      this.shardNum := shardNum;
    }
  }

  /** What the pull handler does, one step at a time, as seen from the
      table: a pair read off the request, or a key looked up. */
  datatype PullStep<K> = Decoded(key: K) | Queried(key: K)

  /** The (key, value) pairs a pull answers for the given request pairs:
      same keys, same order, each value from the pull agent. */
  function Resolve<K, V>(pull: (map<K, V>, K) -> V, t: map<K, V>, items: seq<(K, V)>): (r: seq<(K, V)>)
    ensures |r| == |items|
    ensures forall j :: 0 <= j < |r| ==> r[j].0 == items[j].0 && r[j].1 == pull(t, r[j].0)
  {
    seq(|items|, j requires 0 <= j < |items| => (items[j].0, pull(t, items[j].0)))
  }

  /** Answering one more request pair appends that pair's key and value to
      the response payload. */
  lemma ResolveStep<K, V>(pull: (map<K, V>, K) -> V, t: map<K, V>, items: seq<(K, V)>, k: nat)
    requires k < |items|
    ensures Encode(Resolve(pull, t, items[..k + 1]))
            == Encode(Resolve(pull, t, items[..k])) + [KeyField(items[k].0), DataField(pull(t, items[k].0))]
  {
    assert Resolve(pull, t, items[..k + 1]) == Resolve(pull, t, items[..k]) + [(items[k].0, pull(t, items[k].0))];
    EncodeConcat(Resolve(pull, t, items[..k]), [(items[k].0, pull(t, items[k].0))]);
  }

  /** The response payload for all request pairs holds, pair by pair, each
      requested key with the pull agent's value for it. */
  lemma ResolvedResponse<K, V>(pull: (map<K, V>, K) -> V, t: map<K, V>, items: seq<(K, V)>)
    ensures WellFormed(Encode(Resolve(pull, t, items)))
    ensures var got := Decode(Encode(Resolve(pull, t, items)));
            |got| == |items| && forall j :: 0 <= j < |items| ==> got[j] == (items[j].0, pull(t, items[j].0))
  {
    DecodeEncode(Resolve(pull, t, items));
  }

  /** The table after the push agent has applied the pairs one by one, in
      order, the first pair first: a left fold.  Its last step is one agent
      call on the table the earlier pairs left. */
  function ApplyAll<K, V, G>(push: (map<K, V>, K, G) -> map<K, V>, t: map<K, V>, items: seq<(K, G)>): (r: map<K, V>)
    ensures items != [] ==>
              r == push(ApplyAll(push, t, items[..|items| - 1]), items[|items| - 1].0, items[|items| - 1].1)
    decreases |items|
  {
    if items == [] then t
    else
      var rest := items[1..];
      assert rest != [] ==> items[..|items| - 1][1..] == rest[..|rest| - 1];
      ApplyAll(push, push(t, items[0].0, items[0].1), rest)
  }

  /** One more pair is one more call of the push agent, on the table the
      earlier pairs left. */
  lemma ApplyAllStep<K, V, G>(push: (map<K, V>, K, G) -> map<K, V>, t: map<K, V>, items: seq<(K, G)>, key: K, grad: G)
    ensures ApplyAll(push, t, items + [(key, grad)]) == push(ApplyAll(push, t, items), key, grad)
  {
    assert (items + [(key, grad)])[..|items|] == items;
  }

  /** Applying one batch and then another is applying the two in one batch. */
  lemma {:induction false} ApplyAllConcat<K, V, G>(push: (map<K, V>, K, G) -> map<K, V>, t: map<K, V>,
                                                    a: seq<(K, G)>, b: seq<(K, G)>)
    ensures ApplyAll(push, t, a + b) == ApplyAll(push, ApplyAll(push, t, a), b)
    decreases |a|
  {
    if a == [] {
      assert a + b == b;
    } else {
      assert (a + b)[1..] == a[1..] + b;
      ApplyAllConcat(push, push(t, a[0].0, a[0].1), a[1..], b);
    }
  }

  /** Two push requests handled one after the other leave the table as one
      request carrying both payloads, end to end, would. */
  lemma PushesCompose<K, V, G>(push: (map<K, V>, K, G) -> map<K, V>, t: map<K, V>,
                               p: seq<Field<K, G>>, q: seq<Field<K, G>>)
    requires WellFormed(p) && WellFormed(q)
    ensures WellFormed(p + q)
    ensures ApplyAll(push, ApplyAll(push, t, Decode(p)), Decode(q)) == ApplyAll(push, t, Decode(p + q))
  {
    DecodeConcat(p, q);
    ApplyAllConcat(push, t, Decode(p), Decode(q));
  }

  /** `ServerInitPullMethod`: the handler registered for `WORKER_PULL_REQUEST`. */
  class ServerPullMethod<K(==), V> {
    const table: SparseTable<K, V>
    const pullAccess: (map<K, V>, K) -> V

    constructor (table: SparseTable<K, V>, pullAccess: (map<K, V>, K) -> V)
      ensures this.table == table && this.pullAccess == pullAccess
    {
      this.table := table;
      this.pullAccess := pullAccess;
    }

    /** Reads every pair of the request, then looks each key up and writes
        (key, value) to the response, in request order.  `trace` records
        the reads and the lookups in the order they happen. */
    method HandlePull(req: seq<Field<K, V>>) returns (rsp: seq<Field<K, V>>, ghost trace: seq<PullStep<K>>)
      requires WellFormed(req)
      ensures WellFormed(rsp) && |rsp| == |req|
      ensures var asked, got := Decode(req), Decode(rsp);
              forall j :: 0 <= j < |asked| ==> got[j] == (asked[j].0, pullAccess(table.data, asked[j].0))
      ensures var asked := Decode(req);
              |trace| == 2 * |asked|
              && forall j :: 0 <= j < |asked| ==>
                   trace[j] == Decoded(asked[j].0) && trace[|asked| + j] == Queried(asked[j].0)
    {
      // read request
      var items := ReadPairs(req);
      ghost var decoded := seq(|items|, j requires 0 <= j < |items| => Decoded(items[j].0));
      // query parameters
      rsp := [];
      ghost var queries: seq<PullStep<K>> := [];
      var k := 0;
      while k < |items|
        invariant 0 <= k <= |items|
        invariant rsp == Encode(Resolve(pullAccess, table.data, items[..k]))
        invariant |queries| == k && forall j :: 0 <= j < k ==> queries[j] == Queried(items[j].0)
      {
        var key := items[k].0;
        var val := pullAccess(table.data, key);
        ResolveStep(pullAccess, table.data, items, k);
        rsp := rsp + [KeyField(key), DataField(val)];
        queries := queries + [Queried(key)];
        k := k + 1;
      }
      assert items[..k] == items;
      ResolvedResponse(pullAccess, table.data, items);
      trace := decoded + queries;
    }
  }

  /** `ServerInitPushMethod`: the handler registered for `WORKER_PUSH_REQUEST`,
      with the push counter and the backup configuration.  `backups` stands
      for the files written so far; `handled` counts the requests handled
      and `applied` lists the calls of the push agent. */
  class ServerPushMethod<K(==), V, G> {
    const table: SparseTable<K, V>
    const pushAccess: (map<K, V>, K, G) -> map<K, V>
    const paramBackupPeriod: int32
    const paramBackupRoot: string
    var pushCounter: int32
    var backups: seq<Backup<K, V>>
    ghost var handled: nat
    ghost var applied: seq<(K, G)>

    /** The counter is the number of requests handled, as an `int32`, and
        exactly the backups due so far have been written, each to its own
        path and with every shard in index order. */
    ghost predicate Valid()
      reads this
    {
      pushCounter == Wrap(handled)
      && BackupsDue(backups, handled, paramBackupPeriod, paramBackupRoot, table.shardNum)
    }

    constructor (table: SparseTable<K, V>, pushAccess: (map<K, V>, K, G) -> map<K, V>,
                 paramBackupPeriod: int32, paramBackupRoot: string)
      ensures Valid()
      ensures this.table == table && this.pushAccess == pushAccess
      ensures this.paramBackupPeriod == paramBackupPeriod && this.paramBackupRoot == paramBackupRoot
      ensures pushCounter == 0 && handled == 0 && backups == [] && applied == []
    {
      this.table := table;
      this.pushAccess := pushAccess;
      this.paramBackupPeriod := paramBackupPeriod;
      this.paramBackupRoot := paramBackupRoot;
      pushCounter := 0;
      backups := [];
      handled := 0;
      applied := [];
    }

    /** Applies every pair of the request through the push agent, in order,
        answers with the sentinel 1234, counts the request and writes a
        backup when the new counter is due for one. */
    method HandlePush(req: seq<Field<K, G>>) returns (rsp: seq<Field<K, G>>)
      requires Valid() && WellFormed(req)
      modifies this, table
      ensures Valid()
      ensures rsp == [IntField(1234)]
      ensures table.data == ApplyAll(pushAccess, old(table.data), Decode(req))
      ensures applied == old(applied) + Decode(req)
      ensures handled == old(handled) + 1 && pushCounter == Inc(old(pushCounter))
      ensures backups == old(backups)
                         + if ShouldBackup(pushCounter, paramBackupPeriod)
                           then [Backup(BackupPath(paramBackupRoot, pushCounter), pushCounter,
                                        ShardOrder(table.shardNum), table.data)]
                           else []
    {
      ApplyPairs(req);
      rsp := [IntField(1234)];
      CountPush();
    }

    /** The read-and-apply loop: `cont >> key; cont >> grad;` then
        `apply_push_value(key, grad)`, until `read_finished()`. */
    method ApplyPairs(req: seq<Field<K, G>>)
      requires WellFormed(req)
      modifies table, this`applied
      ensures table.data == ApplyAll(pushAccess, old(table.data), Decode(req))
      ensures applied == old(applied) + Decode(req)
    {
      ghost var t0 := table.data;
      ghost var done: seq<(K, G)> := [];
      var i := 0;
      ReadStart(req);
      while i < |req|
        invariant ReadSoFar(req, i, done)
        invariant table.data == ApplyAll(pushAccess, t0, done)
        invariant applied == old(applied) + done
        decreases |req| - i
      {
        ReadStep(req, i, done);
        var key := req[i].key;
        var grad := req[i + 1].data;
        table.data := pushAccess(table.data, key, grad);
        ApplyAllStep(pushAccess, t0, done, key, grad);
        applied := applied + [(key, grad)];
        done := done + [(key, grad)];
        i := i + 2;
      }
      ReadEnd(req, done);
    }

    /** `push_counter++`, then the backup the new counter is due for. */
    method CountPush()
      requires Valid()
      modifies this`pushCounter, this`handled, this`backups
      ensures Valid()
      ensures handled == old(handled) + 1 && pushCounter == Inc(old(pushCounter))
      ensures backups == old(backups)
                         + if ShouldBackup(pushCounter, paramBackupPeriod)
                           then [Backup(BackupPath(paramBackupRoot, pushCounter), pushCounter,
                                        ShardOrder(table.shardNum), table.data)]
                           else []
    {
      IncWrap(handled);
      BackupsDueStep(backups, handled, paramBackupPeriod, paramBackupRoot, table.shardNum, table.data);
      pushCounter := Inc(pushCounter);
      handled := handled + 1;
      // backup local parameters to disk
      if ShouldBackup(pushCounter, paramBackupPeriod) {
        BackupParam();
      }
    }

    /** `backup_param`: writes every shard, in index order, to the file named
        after the current counter. */
    method BackupParam()
      modifies this`backups
      ensures backups == old(backups)
                         + [Backup(BackupPath(paramBackupRoot, pushCounter), pushCounter,
                                   ShardOrder(table.shardNum), table.data)]
    {
      var path := BackupPath(paramBackupRoot, pushCounter);
      var written: seq<nat> := [];
      for i := 0 to table.shardNum
        invariant |written| == i && forall j :: 0 <= j < i ==> written[j] == j
      {
        written := written + [i];
      }
      assert written == ShardOrder(table.shardNum);
      backups := backups + [Backup(path, pushCounter, written, table.data)];
    }
  }
}
