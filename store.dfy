/** The redis state that `qeez_stats/utils.py` keeps for the statistics: per
    session token a hash of packets (`_packets:<token>`) with a sliding expiry,
    and per stat a collector set (`_coll:<stat>`) that only grows. Time is an
    explicit `now`, in seconds. */
module Store {

  /** Seconds a session's packets live after their last write. */
  const PacketExpire: int := 1800
  const PacketsPrefix: string := "_packets:"
  const CollPrefix: string := "_coll:"

  /** `PACKETS_ID_FMT % token` */
  function PacketsKey(token: string): string { PacketsPrefix + token }

  /** `COLL_ID_FMT % stat` (the collector set's redis key) */
  function CollKey(stat: string): string { CollPrefix + stat }

  /** The packet hashes and the collector sets live under disjoint redis keys,
      and each family of keys is injective, so the two maps of `PacketStore`
      stand for one redis key space. */
  lemma KeyNamespaces(t1: string, t2: string, s1: string, s2: string)
    ensures PacketsKey(t1) != CollKey(s1)
    ensures PacketsKey(t1) == PacketsKey(t2) ==> t1 == t2
    ensures CollKey(s1) == CollKey(s2) ==> s1 == s2
  {
    assert PacketsKey(t1)[1] == 'p' && CollKey(s1)[1] == 'c';
    if PacketsKey(t1) == PacketsKey(t2) {
      assert t1 == PacketsKey(t1)[|PacketsPrefix|..];
    }
    if CollKey(s1) == CollKey(s2) {
      assert s1 == CollKey(s1)[|CollPrefix|..];
    }
  }

  class PacketStore {
    /** The packet hash of each session token. */
    var packets: map<string, map<string, string>>
    /** The time at which each session's hash expires. */
    var expiresAt: map<string, int>
    /** The collector set of each stat. */
    var collectors: map<string, set<string>>

    /** Every stored hash carries an expiry: it is only ever written by
        `SavePacketsToStat`, which sets one. */
    ghost predicate Valid()
      reads this
    {
      packets.Keys == expiresAt.Keys
    }

    constructor ()
      ensures Valid()
      ensures packets == map[] && expiresAt == map[] && collectors == map[]
    {
      packets, expiresAt, collectors := map[], map[], map[];
    }

    /** What redis returns for the session's hash at time `now`: the stored
        hash until it expires, the empty hash afterwards or if never written. */
    function Live(token: string, now: int): map<string, string>
      requires Valid()
      reads this
    {
      if token in packets && now < expiresAt[token] then packets[token]
      else map[]
    }

    /** The members of the stat's collector set. */
    function Members(stat: string): set<string>
      reads this
    {
      if stat in collectors then collectors[stat] else {}
    }

    /** `save_packets_to_stat(token, resDc)` at time `now`: `hmset` merges the
        packets over the live hash (new keys win), then `expire` restarts the
        1800-second window. The redis client refuses an empty mapping, and the
        only caller never passes one. */
    method SavePacketsToStat(token: string, resDc: map<string, string>, now: int) returns (res: bool)
      requires Valid()
      requires resDc != map[]
      modifies this
      ensures Valid()
      ensures res
      ensures packets == old(packets)[token := old(Live(token, now)) + resDc]
      ensures expiresAt == old(expiresAt)[token := now + PacketExpire]
      ensures collectors == old(collectors)
      ensures forall later :: now <= later < now + PacketExpire ==>
        Live(token, later) == old(Live(token, now)) + resDc
      ensures forall later :: now + PacketExpire <= later ==> Live(token, later) == map[]
      ensures forall t, later :: t != token ==> Live(t, later) == old(Live(t, later))
    {
      var merged := Live(token, now) + resDc;
      packets := packets[token := merged];
      res := true;
      expiresAt := expiresAt[token := now + PacketExpire];
    }

    /** `retrieve_packets(token)` at time `now`; reads only. */
    method RetrievePackets(token: string, now: int) returns (m: map<string, string>)
      requires Valid()
      ensures m == Live(token, now)
    {
      if token in packets && now < expiresAt[token] {
        m := packets[token];
      } else {
        m := map[];
      }
    }

    /** `update_set(stat, member)`: `sadd` adds the member and answers 1 when
        it was new, 0 when it was already there. No set ever shrinks. */
    method UpdateSet(stat: string, member: string) returns (added: nat)
      requires Valid()
      modifies this
      ensures Valid()
      ensures collectors == old(collectors)[stat := old(Members(stat)) + {member}]
      ensures added == if member in old(Members(stat)) then 0 else 1
      ensures packets == old(packets) && expiresAt == old(expiresAt)
      ensures forall s :: old(Members(s)) <= Members(s)
    {
      var current := if stat in collectors then collectors[stat] else {};
      added := if member in current then 0 else 1;
      collectors := collectors[stat := current + {member}];
    }

    /** `retrieve_set(stat)`; reads only. */
    method RetrieveSet(stat: string) returns (s: set<string>)
      ensures s == Members(stat)
    {
      s := if stat in collectors then collectors[stat] else {};
    }
  }
}
