/** The request handling of `qeez_stats/service.py`: the batch filter
    `_save_data`, the branching of `_process_data` behind the four PUT routes,
    and the stat guards of the enqueue and result endpoints. The request body
    arrives as parsed JSON; the CRC32 of the raw body, the clock and the id rq
    draws for a save job arrive as parameters. An exception the view lets
    escape becomes the 500 response of the error handler. */
module Service {
  import opened Wrappers
  import opened Codec
  import opened Checksum
  import opened Store
  import opened Queues
  import opened Stats

  const BadRequest: int := 400
  const NotFound: int := 404
  const ServerError: int := 500

  /** A parsed JSON value. A missing or unparsable body is `JNull`, which
      Flask's `request.json` reports as `None`. */
  datatype Json =
    | JNull
    | JBool(b: bool)
    | JNum(x: real)
    | JStr(s: string)
    | JList(items: seq<Json>)
    | JObj(fields: map<string, Json>)

  /** Python's truth test on a JSON value: `None`, `False`, zero and empty
      containers are false. */
  predicate Falsy(j: Json)
  {
    match j
    case JNull => true
    case JBool(b) => !b
    case JNum(x) => x == 0.0
    case JStr(s) => s == ""
    case JList(items) => items == []
    case JObj(fields) => fields == map[]
  }

  /** `dict.get(name)`: a missing member reads as `None`. */
  function Get(fields: map<string, Json>, name: string): Json
  {
    if name in fields then fields[name] else JNull
  }

  /** The stat `_process_data` reads: the body's `stat` member, or `None`
      when the body is no object. */
  function StatOf(body: Json): Json
  {
    if body.JObj? then Get(body.fields, "stat") else JNull
  }

  /** The data `_process_data` reads: the body's `data` member, or the whole
      body when it is no object. */
  function DataOf(body: Json): Json
  {
    if body.JObj? then Get(body.fields, "data") else body
  }

  /** What a `for` loop visits in a JSON value: the items of a list, the
      one-character strings of a string, the keys of an object (strings, all
      skipped by `_save_data`, so they are left out here); `None`, a bool or
      a number cannot be iterated (`TypeError`). */
  function Iterate(j: Json): (r: Option<seq<Json>>)
    ensures r.None? <==> j.JNull? || j.JBool? || j.JNum?
    ensures j.JList? ==> r == Some(j.items)
    ensures j.JStr? ==>
      && r.Some? && |r.value| == |j.s|
      && forall i :: 0 <= i < |j.s| ==> r.value[i] == JStr([j.s[i]])
  {
    match j
    case JList(items) => Some(items)
    case JStr(s) => Some(seq(|s|, i requires 0 <= i < |s| => JStr([s[i]])))
    case JObj(_) => Some([])
    case _ => None
  }

  /** The batch `_save_data` walks: the data itself on the multi-packet
      routes, a one-packet list on the single-packet routes. */
  function BatchOf(body: Json, multi: bool): Option<seq<Json>>
  {
    if multi then Iterate(DataOf(body)) else Some([DataOf(body)])
  }

  /** The outcome of `stat not in STATS_MAP`: a registered name, any other
      hashable value, or a list or object, whose hashing raises `TypeError`. */
  datatype Membership = Member(name: string) | NotMember | Unhashable

  function StatLookup(stat: Json): (m: Membership)
    ensures m.Member? <==> stat.JStr? && stat.s in StatsMap
    ensures m.Member? ==> m.name == stat.s
    ensures m.Unhashable? <==> stat.JList? || stat.JObj?
  {
    match stat
    case JStr(s) => if s in StatsMap then Member(s) else NotMember
    case JList(_) => Unhashable
    case JObj(_) => Unhashable
    case _ => NotMember
  }

  /** What one element of a batch does in `_save_data`: skipped, kept as a
      (key, value) entry, or it makes `packet_split` raise `AttributeError`
      (a key that is no string, or a valid key with a value that is no
      string, whose `split` is then called). */
  datatype Verdict = Skip | Keep(key: string, val: string) | Fail

  function Classify(packet: Json): (v: Verdict)
    ensures !(packet.JList? && |packet.items| == 2) ==> v == Skip
    ensures v.Keep? <==>
      && packet.JList? && |packet.items| == 2
      && packet.items[0].JStr? && packet.items[1].JStr?
      && PacketSplit(packet.items[0].s, packet.items[1].s, DefaultResult).Some?
    ensures v.Keep? ==> v == Keep(packet.items[0].s, packet.items[1].s)
    ensures v.Fail? <==>
      && packet.JList? && |packet.items| == 2
      && (!packet.items[0].JStr? || (ValidKey(packet.items[0].s) && !packet.items[1].JStr?))
  {
    if packet.JList? && |packet.items| == 2 then
      var key, val := packet.items[0], packet.items[1];
      if !key.JStr? then Fail
      else if !ValidKey(key.s) then Skip
      else if !val.JStr? then Fail
      else if PacketSplit(key.s, val.s, DefaultResult).Some? then Keep(key.s, val.s)
      else Skip
    else Skip
  }

  /** A packet whose classification keeps the key `k`. */
  predicate KeepsKey(packet: Json, k: string)
  {
    Classify(packet).Keep? && Classify(packet).key == k
  }

  /** `res_dc` after `_save_data` has walked the batch: later entries
      overwrite earlier ones; `None` when the walk raises. */
  function Kept(batch: seq<Json>): Option<map<string, string>>
  {
    if |batch| == 0 then Some(map[])
    else
      match Kept(batch[..|batch| - 1])
      case None => None
      case Some(m) =>
        match Classify(batch[|batch| - 1])
        case Fail => None
        case Skip => Some(m)
        case Keep(k, v) => Some(m[k := v])
  }

  /** The walk raises exactly when some element of the batch makes
      `packet_split` raise; skipped elements never abort it. */
  lemma {:induction false} KeptFails(batch: seq<Json>)
    ensures Kept(batch).None? <==> exists i :: 0 <= i < |batch| && Classify(batch[i]).Fail?
  {
    if |batch| > 0 {
      var prefix := batch[..|batch| - 1];
      KeptFails(prefix);
      if exists i :: 0 <= i < |prefix| && Classify(prefix[i]).Fail? {
        var i :| 0 <= i < |prefix| && Classify(prefix[i]).Fail?;
        assert batch[i] == prefix[i];
      }
      if exists i :: 0 <= i < |batch| && Classify(batch[i]).Fail? {
        var i :| 0 <= i < |batch| && Classify(batch[i]).Fail?;
        if i < |batch| - 1 {
          assert prefix[i] == batch[i];
        }
      }
    }
  }

  /** One step of the walk: a kept element sets its key, a skipped one
      changes nothing. */
  lemma KeptStep(batch: seq<Json>)
    requires |batch| > 0 && Kept(batch).Some?
    ensures Kept(batch[..|batch| - 1]).Some?
    ensures var last := batch[|batch| - 1];
      Kept(batch).value ==
        if Classify(last).Keep? then Kept(batch[..|batch| - 1]).value[Classify(last).key := Classify(last).val]
        else Kept(batch[..|batch| - 1]).value
  {
  }

  /** A key is kept exactly when some accepted packet carries it. */
  lemma {:induction false} KeptKeys(batch: seq<Json>, k: string)
    requires Kept(batch).Some?
    ensures k in Kept(batch).value <==> exists i :: 0 <= i < |batch| && KeepsKey(batch[i], k)
  {
    if |batch| > 0 {
      var prefix := batch[..|batch| - 1];
      KeptStep(batch);
      KeptKeys(prefix, k);
      if exists i :: 0 <= i < |prefix| && KeepsKey(prefix[i], k) {
        var i :| 0 <= i < |prefix| && KeepsKey(prefix[i], k);
        assert batch[i] == prefix[i];
      }
      if exists i :: 0 <= i < |batch| && KeepsKey(batch[i], k) {
        var i :| 0 <= i < |batch| && KeepsKey(batch[i], k);
        if i < |batch| - 1 {
          assert prefix[i] == batch[i];
        }
      }
    }
  }

  /** A kept key holds the value of the last accepted packet that carries
      it: the later write wins. */
  lemma {:induction false} KeptLastWins(batch: seq<Json>, k: string)
    requires Kept(batch).Some? && k in Kept(batch).value
    ensures exists i ::
      && 0 <= i < |batch|
      && Classify(batch[i]) == Keep(k, Kept(batch).value[k])
      && forall j :: i < j < |batch| ==> !KeepsKey(batch[j], k)
  {
    var prefix := batch[..|batch| - 1];
    var last := batch[|batch| - 1];
    var m := Kept(batch).value;
    KeptStep(batch);
    if KeepsKey(last, k) {
      assert Classify(batch[|batch| - 1]) == Keep(k, m[k]);
    } else {
      var pm := Kept(prefix).value;
      assert k in pm && m[k] == pm[k];
      KeptLastWins(prefix, k);
      var i :| 0 <= i < |prefix| && Classify(prefix[i]) == Keep(k, pm[k]) &&
        forall j :: i < j < |prefix| ==> !KeepsKey(prefix[j], k);
      assert batch[i] == prefix[i];
      forall j | i < j < |batch| ensures !KeepsKey(batch[j], k) {
        if j < |batch| - 1 {
          assert batch[j] == prefix[j];
        }
      }
    }
  }

  /** Every kept entry is a packet `packet_split` accepts with the default
      result "0". */
  lemma KeptValid(batch: seq<Json>, k: string)
    requires Kept(batch).Some? && k in Kept(batch).value
    ensures ValidKey(k)
    ensures PacketSplit(k, Kept(batch).value[k], DefaultResult).Some?
  {
  }

  /** What `_save_data` reports: saved (`True`), nothing valid (`False`), or
      the exception of a packet it cannot split. */
  datatype SaveOutcome = Saved | NothingValid | Crashed

  /** `_save_data(token, batch)`: keeps the two-element packets that
      `packet_split` accepts, later keys overwriting earlier ones, and, when
      any was kept, merges them into the session's packet hash and enqueues a
      save job. Nothing is written when the walk raises or keeps nothing. */
  method SaveData(token: string, batch: seq<Json>, now: int, atime: int,
                  saveFnPath: string, newId: string, store: PacketStore, jobs: JobStore)
    returns (out: SaveOutcome)
    requires store.Valid()
    modifies store, jobs
    ensures store.Valid()
    ensures out == Crashed <==> Kept(batch).None?
    ensures out == Saved <==> Kept(batch).Some? && Kept(batch).value != map[]
    ensures out == Saved ==>
      && store.packets == old(store.packets)[token := old(store.Live(token, now)) + Kept(batch).value]
      && store.expiresAt == old(store.expiresAt)[token := now + PacketExpire]
      && store.collectors == old(store.collectors)
      && jobs.jobs == old(jobs.jobs)[newId := SaveJob(token, Kept(batch).value, atime, saveFnPath, newId)]
    ensures out != Saved ==> unchanged(store) && unchanged(jobs)
  {
    var resDc: map<string, string> := map[];
    var i := 0;
    while i < |batch|
      invariant 0 <= i <= |batch|
      invariant Kept(batch[..i]) == Some(resDc)
    {
      var packet := batch[i];
      assert batch[..i + 1][..i] == batch[..i];
      if packet.JList? && |packet.items| == 2 {
        var key, val := packet.items[0], packet.items[1];
        if !key.JStr? {
          KeptFails(batch);
          return Crashed;
        }
        if ValidKey(key.s) {
          if !val.JStr? {
            KeptFails(batch);
            return Crashed;
          }
          if PacketSplit(key.s, val.s, DefaultResult).Some? {
            resDc := resDc[key.s := val.s];
          }
        }
      }
      i := i + 1;
    }
    assert batch[..i] == batch;
    if resDc != map[] {
      var _ := store.SavePacketsToStat(token, resDc, now);
      var _ := jobs.EnqueueStatSave(token, resDc, atime, saveFnPath, newId);
      out := Saved;
    } else {
      out := NothingValid;
    }
  }

  /** A response: an error status, an accepted write (checksum and, on the
      recalculating routes, the compute job's id), or a pulled result. */
  datatype Response =
    | Status(code: int)
    | Accepted(checksum: string, jobId: Option<string>)
    | Found(result: Option<Value>)
    | FoundAll(results: Option<seq<Value>>)

  /** The response of `_process_data`, as a function of the request. */
  function ProcessResponse(body: Json, crc: int, token: string, multi: bool, recalc: bool): Response
  {
    if Falsy(body) then Status(BadRequest)
    else
      var lookup := StatLookup(StatOf(body));
      if recalc && lookup.Unhashable? then Status(ServerError)
      else if recalc && lookup.NotMember? then Status(NotFound)
      else
        match BatchOf(body, multi)
        case None => Status(ServerError)
        case Some(batch) =>
          match Kept(batch)
          case None => Status(ServerError)
          case Some(m) =>
            if m == map[] then Status(BadRequest)
            else Accepted(CalcChecksum(crc), if recalc then Some(StatId(lookup.name, token)) else None)
  }

  /** The outcomes of `_process_data`: an empty body is refused first; an
      unknown stat on a recalculating route is refused before anything is
      read; success carries the body's checksum and, exactly on the
      recalculating routes, the id of the registered stat's compute job,
      which is never the id of a collector job; a batch with nothing valid
      is refused. */
  lemma ProcessOutcomes(body: Json, crc: int, token: string, multi: bool, recalc: bool)
    ensures var r := ProcessResponse(body, crc, token, multi, recalc);
      && (Falsy(body) ==> r == Status(BadRequest))
      && (!Falsy(body) && recalc && StatLookup(StatOf(body)).NotMember? ==> r == Status(NotFound))
      && (r.Accepted? <==>
            && !Falsy(body)
            && (recalc ==> StatOf(body).JStr? && StatOf(body).s in StatsMap)
            && BatchOf(body, multi).Some?
            && Kept(BatchOf(body, multi).value).Some?
            && Kept(BatchOf(body, multi).value).value != map[])
      && (r.Accepted? ==> r.checksum == CalcChecksum(crc) && |r.checksum| == Width)
      && (r.Accepted? ==> (r.jobId.Some? <==> recalc))
      && (r.Accepted? && recalc ==>
            && r.jobId == Some(StatId(StatOf(body).s, token))
            && forall s :: s in StatsMap ==> r.jobId.value != CollId(s))
      && (!Falsy(body) && (recalc ==> StatLookup(StatOf(body)).Member?) &&
          BatchOf(body, multi).Some? && Kept(BatchOf(body, multi).value) == Some(map[])
          ==> r == Status(BadRequest))
  {
    var r := ProcessResponse(body, crc, token, multi, recalc);
    if r.Accepted? && recalc {
      StatNamesColonFree();
      forall s | s in StatsMap ensures r.jobId.value != CollId(s) {
        CollIdNotStatId(s, StatOf(body).s, token);
      }
    }
  }

  /** On the single-packet routes (`put`, and `ar_put` for a registered
      stat) the write is accepted exactly when the one packet (the body, or
      its `data` member) is kept, and it fails with 500 exactly when that
      packet makes `packet_split` raise. */
  lemma SinglePacketRoute(body: Json, crc: int, token: string, recalc: bool)
    requires !Falsy(body)
    requires recalc ==> StatLookup(StatOf(body)).Member?
    ensures var r := ProcessResponse(body, crc, token, false, recalc);
      && (r.Accepted? <==> Classify(DataOf(body)).Keep?)
      && (r == Status(ServerError) <==> Classify(DataOf(body)).Fail?)
  {
    var batch := [DataOf(body)];
    assert batch[..0] == [];
    match Classify(DataOf(body))
    case Keep(k, v) =>
      assert Kept(batch) == Some(map[k := v]);
      assert k in Kept(batch).value;
    case Skip =>
      assert Kept(batch) == Some(map[]);
    case Fail =>
      assert Kept(batch) == None;
  }

  /** On the multi-packet routes (`mput`, and `ar_mput` for a registered
      stat) a batch in which nothing raises and some packet is kept is
      saved, and the answer carries the compute job's id exactly when
      recalculating. */
  lemma MultiPacketRoute(body: Json, crc: int, token: string, recalc: bool, i: nat)
    requires !Falsy(body) && DataOf(body).JList?
    requires recalc ==> StatLookup(StatOf(body)).Member?
    requires var batch := DataOf(body).items;
      && i < |batch| && Classify(batch[i]).Keep?
      && forall j :: 0 <= j < |batch| ==> !Classify(batch[j]).Fail?
    ensures ProcessResponse(body, crc, token, true, recalc)
         == Accepted(CalcChecksum(crc), if recalc then Some(StatId(StatOf(body).s, token)) else None)
  {
    var batch := DataOf(body).items;
    KeptFails(batch);
    KeptKeys(batch, Classify(batch[i]).key);
  }

  /** `_process_data(request, token, multi, recalc)`: refuses an empty body,
      reads stat and data, refuses an unknown stat when recalculating, and
      otherwise saves the batch; after a successful save it enqueues the
      stat's computation when recalculating. */
  method ProcessData(body: Json, crc: int, token: string, multi: bool, recalc: bool,
                     now: int, atime: int, saveFnPath: string, newId: string,
                     store: PacketStore, jobs: JobStore)
    returns (resp: Response)
    requires store.Valid()
    modifies store, jobs
    ensures store.Valid()
    ensures resp == ProcessResponse(body, crc, token, multi, recalc)
    ensures !resp.Accepted? ==> unchanged(store) && unchanged(jobs)
    ensures resp.Accepted? ==>
      var resDc := Kept(BatchOf(body, multi).value).value;
      var saved := old(jobs.jobs)[newId := SaveJob(token, resDc, atime, saveFnPath, newId)];
      && store.packets == old(store.packets)[token := old(store.Live(token, now)) + resDc]
      && store.expiresAt == old(store.expiresAt)[token := now + PacketExpire]
      && store.collectors == old(store.collectors)
      && jobs.jobs == (if recalc then Submitted(saved, StatOf(body).s, token) else saved)
  {
    if Falsy(body) {
      return Status(BadRequest);
    }
    var stat := StatOf(body);
    var data := DataOf(body);
    var lookup := StatLookup(stat);
    if recalc && lookup.Unhashable? {
      return Status(ServerError);
    }
    if recalc && lookup.NotMember? {
      return Status(NotFound);
    }
    var checksum := CalcChecksum(crc);
    var batch := if multi then Iterate(data) else Some([data]);
    if batch.None? {
      return Status(ServerError);
    }
    var saved := SaveData(token, batch.value, now, atime, saveFnPath, newId, store, jobs);
    if saved == Crashed {
      return Status(ServerError);
    }
    if saved == NothingValid {
      return Status(BadRequest);
    }
    var jobId: Option<string> := None;
    if recalc {
      var job := jobs.EnqueueStatCalc(lookup.name, token);
      jobId := Some(job.id);
    }
    resp := Accepted(checksum, jobId);
  }

  /** `stats_proc_enq(token)`: refuses an empty body (400), fails on a body
      that is no object (`.get` raises) or an unhashable stat (500), refuses
      an unknown stat (404), and otherwise enqueues the stat's computation
      and answers its checksum and compute job id. */
  method StatsProcEnq(body: Json, crc: int, token: string, jobs: JobStore) returns (resp: Response)
    modifies jobs
    ensures Falsy(body) ==> resp == Status(BadRequest)
    ensures !Falsy(body) && !body.JObj? ==> resp == Status(ServerError)
    ensures body.JObj? && !Falsy(body) ==>
      match StatLookup(Get(body.fields, "stat"))
      case Unhashable => resp == Status(ServerError)
      case NotMember => resp == Status(NotFound)
      case Member(stat) =>
        && resp == Accepted(CalcChecksum(crc), Some(StatId(stat, token)))
        && jobs.jobs == Submitted(old(jobs.jobs), stat, token)
    ensures !resp.Accepted? ==> unchanged(jobs)
  {
    if Falsy(body) {
      return Status(BadRequest);
    }
    var checksum := CalcChecksum(crc);
    if !body.JObj? {
      return Status(ServerError);
    }
    var lookup := StatLookup(Get(body.fields, "stat"));
    if lookup.Unhashable? {
      return Status(ServerError);
    }
    if lookup.NotMember? {
      return Status(NotFound);
    }
    var job := jobs.EnqueueStatCalc(lookup.name, token);
    resp := Accepted(checksum, Some(job.id));
  }

  /** `stats_result_get(stat, token)`: 404 for an unknown stat; otherwise the
      compute job's result, which may be absent, and the pull's TTL update. */
  method StatsResultGet(stat: string, token: string, jobs: JobStore) returns (resp: Response)
    modifies jobs
    ensures stat !in StatsMap ==> resp == Status(NotFound) && unchanged(jobs)
    ensures stat in StatsMap ==>
      && resp == Found(ResultOf(old(jobs.jobs), StatId(stat, token)))
      && jobs.jobs == AfterPull(old(jobs.jobs), StatId(stat, token))
  {
    if stat !in StatsMap {
      return Status(NotFound);
    }
    var result := jobs.PullStatRes(stat, token);
    resp := Found(result);
  }

  /** `stats_results_get(stat)`: 404 for an unknown stat; otherwise the
      results gathered over the collector's membership, absent when the
      collector has none, and 500 when its result cannot be iterated. */
  method StatsResultsGet(stat: string, jobs: JobStore) returns (resp: Response)
    ensures stat !in StatsMap ==> resp == Status(NotFound)
    ensures stat in StatsMap && ResultOf(jobs.jobs, CollId(stat)).None? ==> resp == FoundAll(None)
    ensures (stat in StatsMap && ResultOf(jobs.jobs, CollId(stat)).Some? &&
             ResultOf(jobs.jobs, CollId(stat)).value.Opaque?) ==> resp == Status(ServerError)
    ensures forall ids :: stat in StatsMap && ResultOf(jobs.jobs, CollId(stat)) == Some(Members(ids)) ==>
      resp == FoundAll(Some(Collect(jobs.jobs, ids)))
  {
    if stat !in StatsMap {
      return Status(NotFound);
    }
    var gathered := jobs.PullAllStatRes(stat);
    match gathered
    case NoResult => resp := FoundAll(None);
    case NotIterable => resp := Status(ServerError);
    case Gathered(results) => resp := FoundAll(Some(results));
  }
}
