/** The location ranking `tops_of_locs` of `qeez_stats/stats.py`, over
    packets already decoded, and the stat names that `STATS_MAP` registers. */
module Stats {
  import opened Codec

  /** The keys of `STATS_MAP`. */
  const StatsMap: set<string> := {"avg_resp_time", "tops_of_locs"}

  /** No registered stat name contains the id separator ':'. */
  lemma StatNamesColonFree()
    ensures forall s :: s in StatsMap ==> ':' !in s
  {
  }

  /** A ranking entry: (location id, percentage of positive packets). */
  type Entry = (nat, nat)

  /** The location id of a packet: the second element of its key. */
  function Loc(p: Packet): nat { p.key[1] }

  /** The packets counted: those at `loc`, and among them the positive ones
      (points above zero) and the others. Each is counted over a prefix and
      its last packet, the order in which the loop visits them. */
  function LocCount(ps: seq<Packet>, loc: nat): nat
  {
    if |ps| == 0 then 0
    else LocCount(ps[..|ps| - 1], loc) + (if Loc(ps[|ps| - 1]) == loc then 1 else 0)
  }

  function PosCount(ps: seq<Packet>, loc: nat): nat
  {
    if |ps| == 0 then 0
    else
      var p := ps[|ps| - 1];
      PosCount(ps[..|ps| - 1], loc) + (if Loc(p) == loc && p.points > 0 then 1 else 0)
  }

  function NegCount(ps: seq<Packet>, loc: nat): nat
  {
    if |ps| == 0 then 0
    else
      var p := ps[|ps| - 1];
      NegCount(ps[..|ps| - 1], loc) + (if Loc(p) == loc && p.points <= 0 then 1 else 0)
  }

  /** The distinct location ids of the packets. */
  function Locs(ps: seq<Packet>): set<nat>
  {
    if |ps| == 0 then {} else Locs(ps[..|ps| - 1]) + {Loc(ps[|ps| - 1])}
  }

  /** `int(pos * 100.0 / total) if total else 0`, with floor division. */
  function Percent(pos: nat, total: nat): nat
  {
    if total > 0 then pos * 100 / total else 0
  }

  /** The percentage the ranking reports for `loc`. */
  function LocPercent(ps: seq<Packet>, loc: nat): nat
  {
    Percent(PosCount(ps, loc), PosCount(ps, loc) + NegCount(ps, loc))
  }

  /** A location id is reported exactly when some packet carries it. */
  lemma {:induction false} LocsMembers(ps: seq<Packet>, loc: nat)
    ensures loc in Locs(ps) <==> exists i :: 0 <= i < |ps| && Loc(ps[i]) == loc
  {
    if |ps| > 0 {
      var prefix := ps[..|ps| - 1];
      LocsMembers(prefix, loc);
      if loc in Locs(prefix) {
        var i :| 0 <= i < |prefix| && Loc(prefix[i]) == loc;
        assert Loc(ps[i]) == loc;
      }
      if exists i :: 0 <= i < |ps| && Loc(ps[i]) == loc {
        var i :| 0 <= i < |ps| && Loc(ps[i]) == loc;
        if i < |ps| - 1 {
          assert Loc(prefix[i]) == loc;
        }
      }
    }
  }

  /** Each packet at `loc` is counted once: as positive or as negative. */
  lemma {:induction false} CountsPartition(ps: seq<Packet>, loc: nat)
    ensures PosCount(ps, loc) + NegCount(ps, loc) == LocCount(ps, loc)
  {
    if |ps| > 0 {
      CountsPartition(ps[..|ps| - 1], loc);
    }
  }

  /** A location has packets exactly when it is one of the ids; so every
      reported location has a positive total and the `else 0` branch of the
      percentage is never taken for it. */
  lemma {:induction false} LocsHavePackets(ps: seq<Packet>, loc: nat)
    ensures loc in Locs(ps) <==> LocCount(ps, loc) > 0
  {
    if |ps| > 0 {
      LocsHavePackets(ps[..|ps| - 1], loc);
    }
  }

  /** Floor division by a positive total, for a count no larger than it. */
  lemma FloorPercent(pos: nat, total: nat)
    requires 0 < total && pos <= total
    ensures var pct := pos * 100 / total;
      pct * total <= pos * 100 < (pct + 1) * total && pct <= 100
  {
  }

  /** The percentage is the floor of 100 * positive / total and lies in 0..100. */
  lemma PercentIsFloor(ps: seq<Packet>, loc: nat)
    requires loc in Locs(ps)
    ensures var pos, total, pct := PosCount(ps, loc), LocCount(ps, loc), LocPercent(ps, loc);
      && total > 0
      && pct * total <= pos * 100 < (pct + 1) * total
      && pct <= 100
  {
    CountsPartition(ps, loc);
    LocsHavePackets(ps, loc);
    FloorPercent(PosCount(ps, loc), LocCount(ps, loc));
  }

  /** `a` sorts before `b`: by percentage, then by location id, descending. */
  predicate Above(a: Entry, b: Entry)
  {
    a.1 > b.1 || (a.1 == b.1 && a.0 > b.0)
  }

  predicate StrictlyDescending(s: seq<Entry>)
  {
    forall i, j :: 0 <= i < j < |s| ==> Above(s[i], s[j])
  }

  /** Inserts an entry into a strictly descending list at its place. */
  function Insert(e: Entry, s: seq<Entry>): (r: seq<Entry>)
    requires StrictlyDescending(s) && e !in s
    ensures StrictlyDescending(r)
    ensures multiset(r) == multiset(s) + multiset{e}
  {
    if s == [] then [e]
    else if Above(e, s[0]) then
      assert forall j :: 0 <= j < |s| ==> Above(e, s[j]) by {
        forall j | 0 <= j < |s| ensures Above(e, s[j]) {
          if j > 0 { assert Above(s[0], s[j]); }
        }
      }
      [e] + s
    else
      var t := Insert(e, s[1..]);
      assert s == [s[0]] + s[1..];
      assert Above(s[0], e);
      assert forall k :: 0 <= k < |t| ==> Above(s[0], t[k]) by {
        forall k | 0 <= k < |t| ensures Above(s[0], t[k]) {
          assert t[k] in multiset(t);
          if t[k] != e {
            assert t[k] in multiset(s[1..]);
            var j :| 0 <= j < |s[1..]| && s[1..][j] == t[k];
            assert s[j + 1] == t[k];
          }
        }
      }
      [s[0]] + t
  }

  /** No entry occurs twice. */
  predicate Distinct(s: seq<Entry>)
  {
    forall i, j :: 0 <= i < j < |s| ==> s[i] != s[j]
  }

  /** The tail of a list without repeats has none either and lacks the head. */
  lemma DistinctTail(s: seq<Entry>)
    requires |s| > 0 && Distinct(s)
    ensures Distinct(s[1..]) && s[0] !in s[1..]
  {
  }

  /** `sorted(items, key=lambda item: (item[1], item[0]), reverse=True)` for
      distinct items. */
  function SortDesc(items: seq<Entry>): (r: seq<Entry>)
    requires Distinct(items)
    ensures StrictlyDescending(r)
    ensures multiset(r) == multiset(items)
  {
    if items == [] then []
    else
      DistinctTail(items);
      var rest := SortDesc(items[1..]);
      assert items[0] !in multiset(rest);
      assert items == [items[0]] + items[1..];
      Insert(items[0], rest)
  }

  /** The counter pair of a location: positive and other packets. */
  function Counts(ps: seq<Packet>, loc: nat): (nat, nat)
  {
    (PosCount(ps, loc), NegCount(ps, loc))
  }

  /** `per_loc[loc_id]`, or the fresh `[0, 0]` of a location not seen yet. */
  function CounterOf(perLoc: map<nat, (nat, nat)>, loc: nat): (nat, nat)
  {
    if loc in perLoc then perLoc[loc] else (0, 0)
  }

  /** One more packet adds one to exactly one counter of its location and
      leaves the counters of the other locations alone. */
  lemma CountsStep(ps: seq<Packet>, i: nat)
    requires i < |ps|
    ensures Locs(ps[..i + 1]) == Locs(ps[..i]) + {Loc(ps[i])}
    ensures forall loc :: loc != Loc(ps[i]) ==> Counts(ps[..i + 1], loc) == Counts(ps[..i], loc)
    ensures var c := Counts(ps[..i], Loc(ps[i]));
      Counts(ps[..i + 1], Loc(ps[i])) == if ps[i].points > 0 then (c.0 + 1, c.1) else (c.0, c.1 + 1)
  {
    assert ps[..i + 1][..i] == ps[..i];
  }

  /** The first loop of `tops_of_locs`: per location id, the number of
      positive and of other packets. */
  method CountPerLoc(packets: seq<Packet>) returns (perLoc: map<nat, (nat, nat)>)
    ensures perLoc.Keys == Locs(packets)
    ensures forall loc :: loc in perLoc ==> perLoc[loc] == Counts(packets, loc)
  {
    perLoc := map[];
    var i := 0;
    while i < |packets|
      invariant 0 <= i <= |packets|
      invariant perLoc.Keys == Locs(packets[..i])
      invariant forall loc :: CounterOf(perLoc, loc) == Counts(packets[..i], loc)
    {
      var p := packets[i];
      var loc := p.key[1];
      var stat := if loc in perLoc then perLoc[loc] else (0, 0);
      if p.points > 0 {
        stat := (stat.0 + 1, stat.1);
      } else {
        stat := (stat.0, stat.1 + 1);
      }
      CountsStep(packets, i);
      var next := perLoc[loc := stat];
      forall l ensures CounterOf(next, l) == Counts(packets[..i + 1], l) {
        assert CounterOf(perLoc, l) == Counts(packets[..i], l);
      }
      perLoc := next;
      i := i + 1;
    }
    assert packets[..i] == packets;
    forall loc | loc in perLoc ensures perLoc[loc] == Counts(packets, loc) {
      assert CounterOf(perLoc, loc) == Counts(packets, loc);
    }
  }

  /** Adding the entry of a new location to `locs_stats` and to its items
      keeps the items exactly the entries of the map, one per location. */
  lemma ExtendItems(items: seq<Entry>, locsStats: map<nat, nat>, loc: nat, pct: nat)
    requires forall e :: e in items <==> e.0 in locsStats && e.1 == locsStats[e.0]
    requires forall a, b :: 0 <= a < b < |items| ==> items[a].0 != items[b].0
    requires loc !in locsStats
    ensures forall e :: e in items + [(loc, pct)] <==>
      e.0 in locsStats[loc := pct] && e.1 == locsStats[loc := pct][e.0]
    ensures forall a, b :: 0 <= a < b < |items| + 1 ==> (items + [(loc, pct)])[a].0 != (items + [(loc, pct)])[b].0
  {
  }

  /** The second loop of `tops_of_locs`: the percentage of each location, as
      the items of `locs_stats`, one per location. */
  method PercentItems(packets: seq<Packet>, perLoc: map<nat, (nat, nat)>) returns (items: seq<Entry>)
    requires perLoc.Keys == Locs(packets)
    requires forall loc :: loc in perLoc ==> perLoc[loc] == Counts(packets, loc)
    ensures forall e :: e in items <==> e.0 in Locs(packets) && e.1 == LocPercent(packets, e.0)
    ensures forall a, b :: 0 <= a < b < |items| ==> items[a].0 != items[b].0
    ensures |items| == |Locs(packets)|
  {
    var locsStats: map<nat, nat> := map[];
    items := [];
    var remaining := perLoc.Keys;
    while remaining != {}
      invariant remaining <= perLoc.Keys
      invariant locsStats.Keys == perLoc.Keys - remaining
      invariant forall loc :: loc in locsStats ==> locsStats[loc] == LocPercent(packets, loc)
      invariant forall e :: e in items <==> e.0 in locsStats && e.1 == locsStats[e.0]
      invariant forall a, b :: 0 <= a < b < |items| ==> items[a].0 != items[b].0
      invariant |items| + |remaining| == |perLoc.Keys|
      decreases remaining
    {
      var loc :| loc in remaining;
      var stat := perLoc[loc];
      var sum := stat.0 + stat.1;
      var pct := Percent(stat.0, sum);
      ExtendItems(items, locsStats, loc, pct);
      locsStats := locsStats[loc := pct];
      items := items + [(loc, pct)];
      remaining := remaining - {loc};
    }
  }

  /** `tops_of_locs` over decoded packets: one entry per distinct location,
      with its percentage of positive packets, strictly descending by
      (percentage, location). */
  method TopsOfLocs(packets: seq<Packet>) returns (ranking: seq<Entry>)
    ensures forall e :: e in ranking <==> e.0 in Locs(packets) && e.1 == LocPercent(packets, e.0)
    ensures StrictlyDescending(ranking)
    ensures forall i, j :: 0 <= i < j < |ranking| ==> ranking[i].0 != ranking[j].0
    ensures |ranking| == |Locs(packets)|
    ensures packets == [] ==> ranking == []
  {
    var perLoc := CountPerLoc(packets);
    var items := PercentItems(packets, perLoc);
    ranking := SortDesc(items);
    assert |ranking| == |multiset(ranking)| == |multiset(items)| == |items|;
    forall e ensures e in ranking <==> e in items {
      assert e in ranking <==> e in multiset(ranking);
      assert e in items <==> e in multiset(items);
    }
    forall a, b | 0 <= a < b < |ranking| ensures ranking[a].0 != ranking[b].0 {
      assert ranking[a] in ranking && ranking[b] in ranking;
      assert Above(ranking[a], ranking[b]);
    }
  }
}
