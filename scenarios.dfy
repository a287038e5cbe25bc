/** Two end-to-end runs of the handlers on one shared table, with an additive
    access method (a pull reads the value, 0 for a key never written; a push
    adds the gradient to it). */
module Scenarios {
  import opened Int32
  import opened Container
  import opened Checkpoint
  import opened ServerInit

  /** Pull agent: the stored value, or the default 0 for an unseen key. */
  function AddPull(t: map<int, int>, k: int): int
  {
    if k in t then t[k] else 0
  }

  /** Push agent: value += gradient. */
  function AddPush(t: map<int, int>, k: int, g: int): (r: map<int, int>)
    ensures r.Keys == t.Keys + {k}
    ensures AddPull(r, k) == AddPull(t, k) + g
    ensures forall k' :: k' != k && k' in t ==> r[k'] == t[k']
  {
    t[k := AddPull(t, k) + g]
  }

  /** A payload of two pairs, and what reading it gives. */
  lemma TwoPairs<X>(k1: int, x1: X, k2: int, x2: X)
    ensures WellFormed([KeyField(k1), DataField(x1), KeyField(k2), DataField(x2)])
    ensures Decode([KeyField(k1), DataField(x1), KeyField(k2), DataField(x2)]) == [(k1, x1), (k2, x2)]
    ensures Encode([(k1, x1), (k2, x2)]) == [KeyField(k1), DataField(x1), KeyField(k2), DataField(x2)]
  {
  }

  /** Pushing (k1, g1) and then (k2, g2) into an empty table with the
      additive agent leaves the gradients as the keys' values. */
  lemma AdditivePush(k1: int, g1: int, k2: int, g2: int)
    ensures var t := ApplyAll(AddPush, map[], [(k1, g1), (k2, g2)]);
            AddPull(t, k1) == (if k1 == k2 then g1 + g2 else g1)
            && AddPull(t, k2) == (if k1 == k2 then g1 + g2 else g2)
  {
    var items := [(k1, g1), (k2, g2)];
    assert items[..1] == [(k1, g1)];
    assert items[..1][..0] == [];
    var empty: map<int, int> := map[];
    assert ApplyAll(AddPush, empty, []) == empty;
    var t1 := ApplyAll(AddPush, empty, [(k1, g1)]);
    assert t1 == AddPush(empty, k1, g1);
    assert ApplyAll(AddPush, map[], items) == AddPush(t1, k2, g2);
  }

  /** A push of {(k1, g1), (k2, g2)} against an empty table counts one
      request and writes no backup when backups are off; a pull of k1 and k2
      that follows answers with the pushed gradients (their sum when the two
      keys are the same). */
  method PushThenPull(k1: int, g1: int, k2: int, g2: int)
    returns (ack: seq<Field<int, int>>, counter: int32, written: nat, rsp: seq<Field<int, int>>)
    ensures ack == [IntField(1234)]
    ensures counter == 1 && written == 0
    ensures rsp == [KeyField(k1), DataField(if k1 == k2 then g1 + g2 else g1),
                    KeyField(k2), DataField(if k1 == k2 then g1 + g2 else g2)]
  {
    var table := new SparseTable<int, int>(1);
    var pusher := new ServerPushMethod<int, int, int>(table, AddPush, 0, "backup");
    var puller := new ServerPullMethod<int, int>(table, AddPull);

    TwoPairs(k1, g1, k2, g2);
    ack := pusher.HandlePush([KeyField(k1), DataField(g1), KeyField(k2), DataField(g2)]);
    AdditivePush(k1, g1, k2, g2);
    counter, written := pusher.pushCounter, |pusher.backups|;

    TwoPairs(k1, 0, k2, 0);
    ghost var trace;
    rsp, trace := puller.HandlePull([KeyField(k1), DataField(0), KeyField(k2), DataField(0)]);
    var got := Decode(rsp);
    EncodeDecode(rsp);
    TwoPairs(got[0].0, got[0].1, got[1].0, got[1].1);
    assert got == [got[0], got[1]];
  }

  /** With a backup period of 2, three single-pair pushes write exactly one
      backup, after the second push, to `<root>/param-2.txt`, with both
      shards in order. */
  method PeriodTwo(root: string) returns (after1: nat, after2: nat, after3: nat, file: Backup<int, int>)
    ensures after1 == 0 && after2 == 1 && after3 == 1
    ensures file.path == CStr(root) + "/param-2.txt" && file.counter == 2 && file.shards == [0, 1]
    ensures file.snapshot == map[7 := 2]
  {
    var table := new SparseTable<int, int>(2);
    var pusher := new ServerPushMethod<int, int, int>(table, AddPush, 2, root);
    var req: seq<Field<int, int>> := [KeyField(7), DataField(1)];
    assert req[2..] == [];
    assert Decode(req) == [(7, 1)];

    PeriodTwoThreePushes(root);
    assert BackupCounters(1, 2) == [] && BackupCounters(2, 2) == [2];
    var _ := pusher.HandlePush(req);
    after1 := |pusher.backups|;
    var _ := pusher.HandlePush(req);
    after2 := |pusher.backups|;
    file := pusher.backups[0];
    var _ := pusher.HandlePush(req);
    after3 := |pusher.backups|;
    assert ShardOrder(2) == [0, 1];
  }
}
