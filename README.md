# SwiftSnails server request handlers, modelled in Dafny

This project models the server side of the SwiftSnails parameter server: the
two batch handlers in `src/core/system/server/init.h` and the periodic
parameter backup that the push handler triggers.

- **Pull** (`ServerInitPullMethod`). A worker sends (key, placeholder value)
  pairs. The handler first reads every pair off the request. Then, for each
  pair in order, it asks the pull access agent for the key's value and writes
  (key, value) to the response.
- **Push** (`ServerInitPushMethod`). A worker sends (key, gradient) pairs. The
  handler reads them one at a time and applies each through the push access
  agent as soon as it is read. It answers with the single integer `1234`,
  increments `push_counter`, and calls `backup_param` when
  `param_backup_period > 0` and the new counter is a multiple of it.
- **Backup** (`backup_param`). It writes shards `0 .. shard_num() - 1`, in
  that order, to the file `<param_backup_root>/param-<push_counter>.txt`.
  The root goes through `c_str()` and `%s`, so only its characters before the
  first NUL reach the path (`Checkpoint.CStr`).

How the model is built:

- A payload (`Request::cont`) is a sequence of typed fields: `Container.Field`.
- The sparse table is one `ServerInit.SparseTable` object holding a
  `map<K, V>`. Both handler objects hold a reference to the same table, as
  both source classes hold a reference to the global table.
- The access agents are the functions the handler objects are built with:
  `pull: (map<K, V>, K) -> V` and `push: (map<K, V>, K, G) -> map<K, V>`.
  The agents' update math is not shown in the source, so the model leaves
  these functions arbitrary.
- The configuration values (`param_backup_period`, `param_backup_root`) and
  the shard count are constructor parameters.
- `ServerPushMethod.backups` is the list of backup files written so far. Each
  entry records the path, the counter, the shard indices in the order they
  were written, and the table contents they were written from.
- The ghost field `applied` lists every call of the push agent, in order. The
  ghost field `handled` counts the push requests handled.
- `push_counter` is a `std::atomic<int>`, so the model keeps it as a 32-bit
  `int32` that wraps around in two's complement (`Int32.Inc`). While fewer
  than 2^31 requests have been handled, the counter equals the number of
  handled requests (`Int32.Wrap`), so it never decreases. The next request
  makes it negative (`Int32.CounterOverflow`). The `%` in the trigger is
  C++'s truncating remainder (`Int32.CRem`).
- Each handler lambda is one method (`HandlePull`, `HandlePush`). Its read
  loop is its own method: `Container.ReadPairs` for pull,
  `ServerPushMethod.ApplyPairs` for push. The counter-and-trigger step is
  `ServerPushMethod.CountPush`.
- The source checks `read_finished()` only between pairs and has no error
  path. So each handler requires a payload made of whole (key, datum) pairs
  (`Container.WellFormed`).
- Push applies pairs while it reads them. So nothing here claims that a push
  request is applied all at once.

## Model

| member | source | states |
|---|---|---|
| `ServerInit.ServerPullMethod.HandlePull` | src/core/system/server/init.h:49-69 | The response is well formed and as long as the request. Its j-th pair is the j-th requested key with the pull agent's value for that key, read from the shared table. So an empty request gets an empty response. The ghost trace lists one read per pair, in request order, and then one lookup per pair, in the same order. The trace mirrors the two loops of the body: the read loop's pairs, then the lookup loop's keys. |
| `Container.ReadPairs` | src/core/system/server/init.h:52-59 | The read loop returns exactly the decoded pairs of the request, in order. |
| `Container.Decode` | src/core/system/server/init.h:53-58 | A well-formed payload decodes into half as many pairs as it has fields. |
| `Container.Encode` | src/core/system/server/init.h:66-67 | Writing pairs key first gives a well-formed payload of twice as many fields. |
| `Container.DecodeEncode` | src/core/system/server/init.h:61-67 | Reading back a payload written from pairs gives those pairs. |
| `Container.EncodeDecode` | src/core/system/server/init.h:53-58 | Writing the pairs read from a well-formed payload rebuilds that payload field for field. |
| `Container.EncodeConcat` | src/core/system/server/init.h:61-67 | Writing two lists of pairs one after the other writes their concatenation. |
| `Container.DecodeConcat` | src/core/system/server/init.h:119-123 | Two payloads laid end to end are well formed and decode into the first payload's pairs followed by the second's, because the read loop consumes a payload front to back. `ServerInit.PushesCompose` uses it. |
| `Container.WellFormed` | src/core/system/server/init.h:53-57 | A payload is a whole number of pairs if and only if it has even length, with keys at the even positions and data at the odd ones. Each `read_finished()` test then falls between pairs. |
| `Container.ReadStep` | src/core/system/server/init.h:53-57 | Before the payload is exhausted, a well-formed rest starts with a key and then a datum; reading them extends the pairs read so far. |
| `Container.ReadEnd` | src/core/system/server/init.h:53 | When `read_finished()` holds, every pair of the payload has been read. |
| `ServerInit.Resolve` | src/core/system/server/init.h:61-68 | The answer has one pair per request pair. It keeps the request's keys in the same order and pairs each key with the pull agent's value for it. The placeholder values of the request play no part. |
| `ServerInit.ResolveStep` | src/core/system/server/init.h:61-68 | Answering one more pair appends that key and the agent's value to the response payload. |
| `ServerInit.ResolvedResponse` | src/core/system/server/init.h:61-68 | The response for all pairs decodes, pair by pair, to each requested key with the agent's value for it. |
| `ServerInit.ServerPushMethod.HandlePush` | src/core/system/server/init.h:116-132 | The table becomes the left fold of the push agent over the request's pairs. The log of agent calls grows by exactly those pairs, in payload order. The response is exactly `[1234]`. The counter takes one wrapped increment. One backup is added if and only if `ShouldBackup` holds for the new counter. It goes to `BackupPath` of that counter and lists every shard in index order. The class invariant is kept: the counter equals `Wrap(handled)`, and the backups written are exactly those due. |
| `ServerInit.ServerPushMethod.ApplyPairs` | src/core/system/server/init.h:119-125 | The read-and-apply loop calls the push agent once per pair, in order. The table ends as `ApplyAll` of the pairs. |
| `ServerInit.ServerPushMethod.CountPush` | src/core/system/server/init.h:128-131 | One more request is counted. The counter wraps like `std::atomic<int>`. A backup is written exactly when the new counter is due for one. The invariant is kept. |
| `ServerInit.ServerPushMethod.BackupParam` | src/core/system/server/init.h:138-149 | Exactly one file is added. Its path is `root/param-<counter>.txt`, and it holds shards 0 to `shard_num() - 1` in increasing order, taken from the current table. |
| `ServerInit.ServerPushMethod.constructor` | src/core/system/server/init.h:99-107 | The handler starts with counter 0, no requests handled, no agent calls and no backups. The period and root are the configured values. |
| `ServerInit.ServerPullMethod.constructor` | src/core/system/server/init.h:37-40 | The handler is bound to the given table and pull agent. |
| `ServerInit.SparseTable.constructor` | src/core/system/server/init.h:77 | The model's own set-up of the shared table that the handler refers to here (`global_sparse_table`, built outside this file): a stand-in that starts empty, with a fixed number of shards. |
| `ServerInit.ApplyAll` | src/core/system/server/init.h:119-125 | The fold applies the pairs first to last, as the loop reads them. Taken from the other end, the table after all pairs is one agent call on the last pair, on the table the earlier pairs left. |
| `ServerInit.ApplyAllStep` | src/core/system/server/init.h:119-124 | Applying one more pair is one more agent call, on the table the earlier pairs left. |
| `ServerInit.ApplyAllConcat` | src/core/system/server/init.h:119-125 | Applying one batch and then another gives the same table as applying the two as one batch. So sequential push requests compose. |
| `ServerInit.PushesCompose` | src/core/system/server/init.h:119-125 | Two push requests handled one after the other leave the table exactly as one request carrying both payloads end to end would. |
| `Checkpoint.ShouldBackup` | src/core/system/server/init.h:130 | The trigger, evaluated with C++'s `%`, holds if and only if the period is positive and divides the counter. |
| `Checkpoint.BackupCounters` | src/core/system/server/init.h:128-131 | The first n pushes trigger at most n backups, and every counter they carry satisfies the trigger. |
| `Checkpoint.BackupsDueStep` | src/core/system/server/init.h:128-131 | When the backups written equal those due after n pushes, adding a file exactly when the next counter is due keeps them equal after n + 1. |
| `Checkpoint.NoBackupWhenDisabled` | src/core/system/server/init.h:130 | With a period of zero or less, no number of pushes triggers a backup. |
| `Checkpoint.BackupsOnPeriod` | src/core/system/server/init.h:128-131 | With a positive period, before overflow, n pushes trigger exactly n / period backups. The j-th of them carries counter (j + 1) * period. |
| `Checkpoint.PeriodTwoThreePushes` | src/core/system/server/init.h:128-141 | With period 2, three pushes trigger exactly one backup, at counter 2, named `CStr(root) + "/param-2.txt"`, which is `root/param-2.txt` for a root with no NUL in it. |
| `Checkpoint.CStr` | src/core/system/server/init.h:140 | `%s` of `c_str()` prints a prefix of the string with no NUL in it. The prefix is the whole string, or it stops just before the first NUL. |
| `Checkpoint.BackupPath` | src/core/system/server/init.h:139-141 | The path is the root as `%s` prints it, then `/param-`, then a numeral, then `.txt`. The numeral is in the form `%d` prints (no leading zero, no `-0`) and reads back to the counter. With `Decimal.CanonicalUnique`, that fixes the file name exactly. |
| `Checkpoint.ShardOrder` | src/core/system/server/init.h:145-147 | The shards are written n of them, each below n, in strictly increasing order. So each of `0 .. shard_num() - 1` is written exactly once. |
| `Checkpoint.BackupPathInjective` | src/core/system/server/init.h:140-141 | Two backups under one root share a path only if they carry the same counter. |
| `Decimal.NatToDecimal` | src/core/system/server/init.h:140-141 | The `%d` numeral of a natural number is a non-empty string of digits, without a leading zero unless the number is 0. |
| `Decimal.IntToDecimal` | src/core/system/server/init.h:140-141 | `%d` of an int starts with `-` if and only if the int is negative. The rest is all digits, in the canonical form: no leading zero, and no `-0`. |
| `Decimal.IntRoundTrip` | src/core/system/server/init.h:140-141 | Reading `%d` of any int back gives that int, of either sign. |
| `Decimal.DigitsUnique` | src/core/system/server/init.h:140-141 | A digit string without a leading zero is the numeral of the number it denotes. |
| `Decimal.CanonicalUnique` | src/core/system/server/init.h:140-141 | A numeral in `%d`'s form is `%d` of the int it denotes. So the form and the value together fix the string. |
| `Decimal.DecimalRoundTrip` | src/core/system/server/init.h:140-141 | Reading a numeral back gives the number it was written from. |
| `Decimal.IntToDecimalInjective` | src/core/system/server/init.h:140-141 | Different counters are written as different numerals. |
| `Int32.Wrap` | src/core/system/server/init.h:158 | After n increments from 0, the counter equals n while n fits in an `int`. It always differs from n by a multiple of 2^32. |
| `Int32.Inc` | src/core/system/server/init.h:128 | `push_counter++` adds one while the counter is below `INT_MAX`. It always adds one modulo 2^32, which fixes the wrap to `INT_MIN`. |
| `Int32.IncWrap` | src/core/system/server/init.h:128 | One `push_counter++` turns the wrapped count of n into the wrapped count of n + 1. |
| `Int32.CounterOverflow` | src/core/system/server/init.h:128 | After 2^31 - 1 pushes the counter is at `INT_MAX`, and the next push makes it `INT_MIN`. |
| `Int32.CRem` | src/core/system/server/init.h:130 | C++ `%` with a positive divisor returns a remainder smaller than the divisor, with the sign of the dividend. It differs from the dividend by a multiple of the divisor. It is zero exactly when the divisor divides the dividend. |
| `Scenarios.AdditivePush` | src/core/system/server/init.h:119-125 | With an additive agent, pushing (k1, g1) and then (k2, g2) into an empty table leaves g1 and g2 as the keys' values, or their sum when k1 = k2. |
| `Scenarios.PushThenPull` | src/core/system/server/init.h:49-132 | On one shared table with an additive agent and backups off, a push of {(k1, g1), (k2, g2)} is acknowledged with `[1234]`. It leaves the counter at 1 and writes no backup. A pull of k1 and k2 that follows answers {(k1, g1), (k2, g2)}, or the sum twice when k1 = k2. |
| `Scenarios.PeriodTwo` | src/core/system/server/init.h:128-147 | With period 2, three pushes: no backup after the first, one after the second, still one after the third. That backup is `root/param-2.txt` (the root up to its first NUL), with counter 2, shards [0, 1] and the table as the second push left it. |

## Left out

- `src/core/system/worker/terminate.h` (the worker's finish handshake) is not part of this model. It is a blocking rendezvous on a barrier that a transport callback releases, after a fixed 5000 ms sleep and a network send.
- Registering the handlers with the transport (`message_class().add`) and `operator()` are left out. They are dispatch plumbing.
- The global singletons behind the handlers are left out: the transfer object, the sparse table and the configuration. The table and the configuration values become constructor parameters.
- The file I/O of `backup_param` is left out: opening, writing and closing the stream. A backup is recorded as an entry in `backups`.
- Failure to write a backup file is not modelled. The source does not check for it either.
- The internals of `SparseTable` are left out: hashing, the partition into shards, and the text form of `shard(i)`. A backup entry records the shard indices in write order and the whole table map.
- The update math of the access agents (`AccessMethod`, `PullAccessAgent`, `PushAccessAgent`) is left out. The agents are arbitrary functions of the table.
- `ServerInit.ServerPullMethod.HandlePull`: the pull agent is a function of the table, so lazily creating a default value for an unseen key is not modelled as a table change.
- Concurrency is left out: two handlers running at once, and the atomicity of `push_counter`. All handlers run one at a time.
- Logging (`LOG`, `RAW_LOG`) is left out. Of `format_string`, only the `%s/param-%d.txt` conversion is modelled.
- Malformed payloads are excluded by a precondition, a whole number of (key, datum) pairs. The code has no error path for them.
- Field types on the wire are left out. Key, value and gradient are type parameters.
