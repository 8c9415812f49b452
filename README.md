# qeez_stats in Dafny

This project models the core of `qeez_stats`, a small statistics service for quiz sessions. Clients PUT packets for a session token. A packet key has the form `grp:loc:cmp:rnd:cat:stp:gmr:tm` and a packet value has the form `answers:time:points`. The service:

- validates the packets;
- merges them into a per-session redis hash that expires 1800 seconds after the last write;
- queues a save job;
- optionally queues the computation of a registered statistic, made of a collector job and a compute job that depends on it;
- serves the computed results.

The model covers:

- the packet codec;
- the redis state;
- the rq job bookkeeping;
- the `tops_of_locs` statistic;
- the request handling of the service.

Each is stated as Dafny functions, classes and methods with their properties proved.

Modules:

- `Wrappers`: `Option`.
- `Strings`: Python's `str.split`, `':'.join`, `str.isdigit` (ASCII digits) and `int()` on text.
- `Codec`: `packet_split`, `decode_raw_packet` and `decode_raw_packets`. It also holds a packet encoder and the round-trip proof `DecodeEncode`.
- `Checksum`: the `'%08x' % (crc & 0xffffffff)` formatting of `calc_checksum`.
- `Store`: the class `PacketStore`. It keeps the packet hashes with their expiry times and the collector sets. Time is an explicit `now`.
- `Queues`: job ids and job records, plus the class `JobStore`, which holds rq's job hashes as a map from id to record. It covers enqueuing, pulling results and gathering a collector's results.
- `Stats`: `STATS_MAP` and `tops_of_locs` over decoded packets. The latter is two counting loops plus a descending sort.
- `Service`: `_save_data`, `_process_data` and the endpoint guards, over a parsed JSON body.

Three behaviours of the code the model keeps as written:

- **Resubmitting a stat.** `enqueue_stat_calc` writes fresh collector and compute records under the deterministic ids each time. It does not reuse an unfinished job.
- **Key arity.** A key has eight parts (`qeez_stats/utils.py:108`).
- **Invalid packets.** `_save_data` drops invalid packets, so a batch with no valid packet gives 400.

## Model

| member | source | states |
|---|---|---|
| Strings.Split | qeez_stats/utils.py:107 | `str.split(sep)`: at least one piece, and no piece contains the separator |
| Strings.JoinSplit | qeez_stats/utils.py:107 | joining the pieces of a split with the separator gives the string back |
| Strings.SplitCount | qeez_stats/utils.py:115-116 | a split has one piece more than the string has separators (the arity tests count separators) |
| Strings.SplitJoin | qeez_stats/utils.py:107 | splitting the join of separator-free pieces gives those pieces back |
| Strings.IsDigits | qeez_stats/utils.py:111 | `str.isdigit` on ASCII text: non-empty and every character a decimal digit |
| Strings.ParseInt | qeez_stats/utils.py:157 | `int()` on text: an all-digit string gives its decimal value; an accepted string is an optional sign followed by digits only; a negative value comes only from a leading '-' |
| Strings.Values | qeez_stats/utils.py:153 | `int(part)` for each digit part, in order and of the same length |
| Codec.PacketSplit | qeez_stats/utils.py:95-125 | returns parts exactly when the key has 8 all-digit parts, the value has 3 parts and every result part is all digits; the parts have those arities and join back to the key, value and result |
| Codec.AcceptedKeyText | qeez_stats/utils.py:107-113 | an accepted key holds seven separators and digits only |
| Codec.DecodeRawPacket | qeez_stats/utils.py:128-160 | `None` for a packet that is empty or of length other than 2 or 3, and exactly when `packet_split` rejects; when `packet_split` accepts, a `ValueError` is raised exactly when `int()` fails on the third value part; a decoded packet has a non-empty result tuple |
| Codec.Answers | qeez_stats/utils.py:155 | the answers keep only the all-digit tokens, so there are at most as many answers as tokens |
| Codec.DecodeDefaultResult | qeez_stats/utils.py:134-136 | a two-element packet decodes as if its result were "0" |
| Codec.DecodedFields | qeez_stats/utils.py:150-160 | the i-th key number is the value of the i-th key part; the answers are the digit answers in order; the time is the second value part; the points are `int()` of the third; the result is the values of the result parts |
| Codec.AnswersAppend | qeez_stats/utils.py:155 | the answer filter keeps order: filtering a concatenation concatenates the results |
| Codec.AnswersSingle | qeez_stats/utils.py:155 | a token that is not all digits is dropped and a digit token is kept as its value |
| Codec.AnswersAllDigits | qeez_stats/utils.py:155 | when every token is digits nothing is dropped |
| Codec.DecodeRawPackets | qeez_stats/utils.py:163-167 | same length as the input; element i is the decoding of packet i |
| Codec.AnswersOfJoin | qeez_stats/utils.py:155 | the answers of a comma-joined answer list are that list |
| Codec.DecodeEncode | qeez_stats/utils.py:128-160 | decoding the text of any packet (time without ':', non-empty result) gives that packet back |
| Checksum.Hex | qeez_stats/utils.py:61 | `'%0*x'`: exactly `width` lower-case hex digits |
| Checksum.HexRoundTrip | qeez_stats/utils.py:61 | reading the digits back gives the formatted number |
| Checksum.CalcChecksum | qeez_stats/utils.py:56-61 | eight lower-case hex digits spelling the CRC modulo 2^32 |
| Checksum.SignedCrcSameChecksum | qeez_stats/utils.py:61 | masking makes a signed CRC give the same checksum as the unsigned one |
| Checksum.EmptyBodyChecksum | qeez_stats/utils.py:56-61 | CRC 0 gives "00000000" |
| Store.KeyNamespaces | qeez_stats/utils.py:27-28 | packet-hash keys and collector-set keys never collide, and each key family is injective |
| Store.PacketStore.constructor | qeez_stats/utils.py:170-202 | starts with no hashes, no expiries and no sets, which satisfies the invariant that every hash carries an expiry |
| Store.PacketStore.Live | qeez_stats/utils.py:181-186 | `hgetall` at time `now`: the stored hash while its expiry lies ahead, the empty mapping once it has passed or when no hash was stored |
| Store.PacketsKey | qeez_stats/utils.py:28 | the redis key of a session's packet hash, `_packets:` followed by the token |
| Store.CollKey | qeez_stats/utils.py:27 | the redis key of a stat's collector set, `_coll:` followed by the stat name |
| Store.PacketStore.SavePacketsToStat | qeez_stats/utils.py:170-178 | the token's hash becomes the live hash overridden by the new entries, and its expiry is now + 1800; the merged hash is visible until then and gone afterwards; other tokens and the collector sets are unchanged |
| Store.PacketStore.RetrievePackets | qeez_stats/utils.py:181-186 | returns the live hash (empty once expired) and changes nothing |
| Store.PacketStore.UpdateSet | qeez_stats/utils.py:189-194 | adds the member and returns 1 if it was new, 0 otherwise; no set shrinks; the packet hashes are unchanged |
| Store.PacketStore.RetrieveSet | qeez_stats/utils.py:197-202 | returns the stat's members and changes nothing |
| Queues.CollId | qeez_stats/queues.py:37 | the collector job id of a stat, `stat:` followed by the stat name |
| Queues.StatId | qeez_stats/queues.py:38 | the compute job id of a stat for a session, `stat:` then the stat name, ':' and the token |
| Queues.CollIdNotStatId | qeez_stats/queues.py:37-38 | for a stat name without ':' the collector id differs from every compute id |
| Queues.CollIdMeetsStatId | qeez_stats/queues.py:37-38 | without that condition the two ids can collide |
| Queues.StatIdInjective | qeez_stats/queues.py:38 | compute ids of colon-free stat names determine the stat and the token |
| Queues.SubmittedShape | qeez_stats/queues.py:70-83 | after enqueueing, both records are present on queue 'calc' without results; the compute job depends on the collector; no other job changed |
| Queues.SubmitIdempotent | qeez_stats/queues.py:70-83 | enqueueing the same stat and token twice leaves the same store as once |
| Queues.JobStore.constructor | qeez_stats/queues.py:70-126 | starts with no jobs |
| Queues.JobStore.EnqueueStatCalc | qeez_stats/queues.py:70-83 | writes the collector job then the dependent compute job (timeout 30, ttl and result_ttl -1) and returns the compute job |
| Queues.JobStore.EnqueueStatSave | qeez_stats/queues.py:57-67 | writes a save job on queue 'save' with args (token, atime, packets), timeout 30, result_ttl 30, ttl -1 |
| Queues.PullProperties | qeez_stats/queues.py:86-99 | a pull returns the stored result; nothing changes without a result; otherwise exactly that job gets ttl and result_ttl 86400; a second pull returns the same and changes nothing more |
| Queues.JobStore.PullStatRes | qeez_stats/queues.py:86-99 | returns the compute job's result and applies the pull's TTL update |
| Queues.Collect | qeez_stats/queues.py:117-124 | at most one result per id of the membership |
| Queues.CollectAppend | qeez_stats/queues.py:117-124 | gathering keeps membership order |
| Queues.CollectSound | qeez_stats/queues.py:117-124 | every gathered value is the result of a job named in the membership |
| Queues.CollectComplete | qeez_stats/queues.py:117-124 | every job of the membership that has a result contributes it |
| Queues.JobStore.PullAllStatRes | qeez_stats/queues.py:102-126 | `None` without a collector result; the results of the membership's jobs that have one, in order; a non-iterable collector result fails; no job changes |
| Queues.GetMethodByPath | qeez_stats/utils.py:205-221 | resolves a path exactly when it names a function, and then returns that function; a path that names none gives `None` |
| Queues.DirectStatSave | qeez_stats/queues.py:41-54 | true exactly when the save function resolves and returns true; an unresolvable path or an exception gives false |
| Stats.StatNamesColonFree | qeez_stats/stats.py:72-77 | no registered stat name contains ':' |
| Stats.LocsMembers | qeez_stats/stats.py:47-53 | the locations counted are exactly the `key[1]` of the packets |
| Stats.CountsPartition | qeez_stats/stats.py:54-57 | per location, positive plus non-positive counts equal the number of packets there |
| Stats.LocsHavePackets | qeez_stats/stats.py:59-65 | a location appears exactly when it has packets, so its total is positive |
| Stats.PercentIsFloor | qeez_stats/stats.py:61-63 | each percentage is the floor of 100 * positive / total and lies in 0..100 |
| Stats.Insert | qeez_stats/stats.py:67-69 | inserting into a strictly descending list keeps it strictly descending and adds the entry |
| Stats.SortDesc | qeez_stats/stats.py:67-69 | the sort is strictly descending by (percentage, location) and a permutation of its input |
| Stats.CountPerLoc | qeez_stats/stats.py:47-57 | one counter pair per location: its positive and non-positive packet counts |
| Stats.PercentItems | qeez_stats/stats.py:59-65 | one entry per location holding its percentage |
| Stats.TopsOfLocs | qeez_stats/stats.py:41-69 | exactly one entry per distinct location, holding its percentage, strictly descending with no truncation; empty input gives an empty list |
| Service.Falsy | qeez_stats/service.py:134 | Python truthiness of a JSON body: `null`, `false`, zero, the empty string, the empty list and the empty object are falsy |
| Service.Iterate | qeez_stats/service.py:91 | a list iterates its items and a string its characters; `None`, bools and numbers cannot be iterated |
| Service.StatLookup | qeez_stats/service.py:145 | registered names are members; lists and objects are unhashable |
| Service.Classify | qeez_stats/service.py:91-95 | only two-element lists with string key and value that `packet_split` accepts are kept; anything else, 3-element packets included, is skipped; a non-string key, or a valid key with a non-string value, raises |
| Service.Kept | qeez_stats/service.py:90-95 | the `res_dc` the batch loop builds, entry by entry, or the exception that aborts it |
| Service.KeptFails | qeez_stats/service.py:91-95 | the batch walk raises exactly when some element raises; skipped elements do not abort it |
| Service.KeptKeys | qeez_stats/service.py:91-95 | a key is saved exactly when some kept packet carries it |
| Service.KeptLastWins | qeez_stats/service.py:95 | a saved key holds the value of the last kept packet carrying it: the later write wins |
| Service.KeptValid | qeez_stats/service.py:94-95 | every saved entry passes `packet_split` |
| Service.SaveData | qeez_stats/service.py:87-100 | saves and enqueues a save job exactly when something was kept, merging the kept entries into the token's hash; with nothing kept, or on an exception, nothing is written |
| Service.ProcessResponse | qeez_stats/service.py:131-156 | the response of `_process_data` for a body, checksum input, token and route flags |
| Service.ProcessOutcomes | qeez_stats/service.py:131-156 | falsy body gives 400 first; recalc with unknown stat gives 404; success exactly when the body is truthy, the stat (when recalculating) is registered and the batch keeps something; success carries the checksum and, only when recalculating, the compute job id, which no collector id equals; nothing kept gives 400 |
| Service.SinglePacketRoute | qeez_stats/service.py:141-144 | on the `put` route, and on `ar_put` when the stat is registered, the write succeeds exactly when the one packet is kept, and gives 500 exactly when it raises |
| Service.MultiPacketRoute | qeez_stats/service.py:141-156 | on the `mput` route, and on `ar_mput` when the stat is registered, a batch with one kept packet and no raising packet is accepted, with the compute job id exactly when recalculating |
| Service.ProcessData | qeez_stats/service.py:131-156 | gives the response of `ProcessResponse`; writes the store and the save job only on success, and then also the computation jobs when recalculating |
| Service.StatsProcEnq | qeez_stats/service.py:187-203 | 400 for a falsy body, 500 for a non-object body or unhashable stat, 404 for an unknown stat, otherwise enqueues the computation and answers checksum and compute job id |
| Service.StatsResultGet | qeez_stats/service.py:206-216 | 404 for an unknown stat, otherwise the pulled result (possibly absent) with the pull's TTL update |
| Service.StatsResultsGet | qeez_stats/service.py:219-229 | 404 for an unknown stat, otherwise the gathered results, absent when the collector has none, 500 when its result is not iterable |

## Left out

- Flask, logging, error-handler bodies, JSON rendering and request-context client caching (`qeez_stats/service.py:39-77,103-128`). These are web and I/O glue, so responses are a datatype.
- Redis client construction (`qeez_stats/utils.py:64-92`) and `to_str`/`to_bytes` (`qeez_stats/utils.py:34-53`). Keys and values are text throughout.
- CRC32 (zlib) is a foreign call, so it enters as an integer parameter of `Checksum.CalcChecksum` and `Service.ProcessData`.
- `avg_resp_time` (`qeez_stats/stats.py:26-38`) works on floats.
- `float(val_parts[1])` is not modelled. `Codec.DecodeRawPacket` keeps the time part as text, so a `ValueError` from `float()` is not modelled either.
- `Strings.ParseInt`: `int()` parsing is ASCII sign plus digits. Python also accepts surrounding whitespace and `_` digit separators. Those forms give `None` here, so `Codec.DecodeRawPacket` reports `ConversionError` for them.
- `Queues.GetMethodByPath`: the registry lookup does not model the exceptions that escape `get_method_by_path`. A path without '.' raises `ValueError` when the `rsplit` result is unpacked, and errors from `eval` other than `KeyError` and `NameError` propagate. Its only caller, `direct_stat_save`, turns any exception into `False`, so `Queues.DirectStatSave` is unaffected.
- `Queues.Submitted`: the model assumes re-enqueueing a stat clears the job's earlier result. Whether rq's `Job.save` merges into the existing job hash, so that an earlier result survives until the job runs again, depends on the rq version, which the repository does not pin.
- `Strings.IsDigits` accepts ASCII `'0'..'9'` only. Python's `isdigit` also accepts other Unicode digits.
- `bytes` packets in `decode_raw_packet` (`qeez_stats/utils.py:141-146`) are converted to text by `to_str`, so the model starts from text.
- `get_method_by_path` (`qeez_stats/utils.py:205-221`) imports dynamically and calls `eval`, so it is modelled as a lookup in a registry parameter.
- rq internals are library behaviour: workers, dependency release, timeouts, job serialisation and the random id of a save job. The random id enters as the parameter `newId`.
- The collector function `stat_collector` is defined in no file of the repository. Its result is modelled as a value: a membership list or an opaque value.
- `gmtime()` enters as the parameter `atime`, and redis time as `now`.
- `hmset` and `expire` (`qeez_stats/utils.py:176-177`) are two separate redis commands. Concurrency between them is not modelled, so `Store.PacketStore.SavePacketsToStat` applies both at once.
- `Store.PacketStore.SavePacketsToStat` requires a non-empty mapping. redis-py refuses an empty `hmset`, and the only caller never passes one.
- `Service.Iterate`: iterating a JSON object yields its keys. Those are strings, which `_save_data` always skips, so the model iterates an object as empty. The outcome is the same.
- `Stats.TopsOfLocs`: the percentage `int(pos * 100.0 / total)` is computed as integer floor division, not through a float.
- `Stats.TopsOfLocs` works on packets that are already decoded. `stats.py` passes the dict from `retrieve_packets` to `decode_raw_packets` (`qeez_stats/stats.py:44-45`), and iterating that dict yields only its keys. End-to-end statistic computation is therefore not modelled.
- The four PUT routes (`qeez_stats/service.py:159-184`) only pass fixed `multi`/`recalc` flags to `_process_data`. They are the parameters of `Service.ProcessData` rather than separate members.
- The tests at `tests/utils_test.py:69-96` and `tests/service_test.py:64-77` assume a 7-part key and acceptance of invalid packets. They disagree with the code, and the model follows the code.
