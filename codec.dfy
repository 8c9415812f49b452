/** The packet codec of `qeez_stats/utils.py`. A packet is sent as text:
    a key `grp:loc:cmp:rnd:cat:stp:gmr:tm` of eight digit parts, a value
    `answers:time:points` of three parts (the answers comma-separated) and an
    optional result `r:r:...` of digit parts. `packet_split` validates the
    shape, `decode_raw_packet` converts a packet to numbers. */
module Codec {
  import opened Wrappers
  import opened Strings

  const PacketSep: char := ':'
  const AnswerSep: char := ','
  const KeyArity: nat := 8
  const ValArity: nat := 3
  /** The result argument used when a packet carries none. */
  const DefaultResult: string := "0"

  /** The split key, value and result that `packet_split` hands back. */
  datatype Parts = Parts(key: seq<string>, val: seq<string>, rst: seq<string>)

  predicate ValidKey(key: string)
  {
    var parts := Split(key, PacketSep);
    |parts| == KeyArity && AllDigits(parts)
  }

  predicate ValidResult(rst: string)
  {
    AllDigits(Split(rst, PacketSep))
  }

  /** `packet_split(key, val, rst)`: the parts when the key has eight digit
      parts, the value three parts (unchecked) and the result digit parts
      only; `None` otherwise. Joining the parts gives the input back. */
  function PacketSplit(key: string, val: string, rst: string): (r: Option<Parts>)
    ensures r.Some? <==>
      ValidKey(key) && Occurrences(val, PacketSep) == ValArity - 1 && ValidResult(rst)
    ensures r.Some? ==>
      && |r.value.key| == KeyArity && AllDigits(r.value.key)
      && |r.value.val| == ValArity
      && |r.value.rst| >= 1 && AllDigits(r.value.rst)
    ensures r.Some? ==>
      && Join(r.value.key, PacketSep) == key
      && Join(r.value.val, PacketSep) == val
      && Join(r.value.rst, PacketSep) == rst
  {
    SplitCount(val, PacketSep);
    var keyParts := Split(key, PacketSep);
    if |keyParts| != KeyArity then None
    else if !AllDigits(keyParts) then None
    else
      var valParts := Split(val, PacketSep);
      if |valParts| != ValArity then None
      else
        var rstParts := Split(rst, PacketSep);
        if !AllDigits(rstParts) then None
        else
          JoinSplit(key, PacketSep);
          JoinSplit(val, PacketSep);
          JoinSplit(rst, PacketSep);
          Some(Parts(keyParts, valParts, rstParts))
  }

  /** A string whose pieces are all digit strings consists of digits and separators. */
  lemma DigitPiecesChars(s: string, sep: char)
    requires AllDigits(Split(s, sep))
    ensures forall k :: 0 <= k < |s| ==> s[k] == sep || IsDigit(s[k])
  {
    JoinSplit(s, sep);
    forall k | 0 <= k < |s| ensures s[k] == sep || IsDigit(s[k]) {
      JoinChars(Split(s, sep), sep, s[k]);
    }
  }

  /** An accepted key holds exactly seven separators and otherwise only digits. */
  lemma AcceptedKeyText(key: string)
    requires ValidKey(key)
    ensures Occurrences(key, PacketSep) == KeyArity - 1
    ensures forall k :: 0 <= k < |key| ==> key[k] == PacketSep || IsDigit(key[k])
  {
    SplitCount(key, PacketSep);
    DigitPiecesChars(key, PacketSep);
  }

  /** The eight location numbers of a packet key. */
  type PacketKey = k: seq<nat> | |k| == KeyArity witness [0, 0, 0, 0, 0, 0, 0, 0]

  /** The tuple `decode_raw_packet` builds. The time part is kept as its
      text, since its float value is not modelled. */
  datatype Packet = Packet(key: PacketKey, answers: seq<nat>, time: string, points: int, result: seq<nat>)

  /** `None` for a rejected packet, the decoded packet, or the `ValueError`
      that `int()` raises on a points part that is no integer. */
  datatype Decoded = Rejected | Decoded(packet: Packet) | ConversionError

  /** `[int(ans) for ans in tokens if ans.isdigit()]` */
  function Answers(tokens: seq<string>): (r: seq<nat>)
    ensures |r| <= |tokens|
  {
    if |tokens| == 0 then []
    else (if IsDigits(tokens[0]) then [DigitsValue(tokens[0])] else []) + Answers(tokens[1..])
  }

  /** The answers of a concatenation are the concatenated answers: order kept. */
  lemma {:induction false} AnswersAppend(a: seq<string>, b: seq<string>)
    ensures Answers(a + b) == Answers(a) + Answers(b)
  {
    if |a| == 0 {
      assert a + b == b;
    } else {
      var ab := a + b;
      assert ab[0] == a[0];
      assert ab[1..] == a[1..] + b;
      AnswersAppend(a[1..], b);
      var h := if IsDigits(a[0]) then [DigitsValue(a[0])] else [];
      assert Answers(ab) == h + Answers(a[1..] + b);
      assert Answers(a) == h + Answers(a[1..]);
    }
  }

  /** A token that is not all digits is dropped, a digit token is kept as its value. */
  lemma AnswersSingle(t: string)
    ensures Answers([t]) == if IsDigits(t) then [DigitsValue(t)] else []
  {
  }

  /** When every token is a digit string nothing is dropped. */
  lemma {:induction false} AnswersAllDigits(tokens: seq<string>)
    requires AllDigits(tokens)
    ensures Answers(tokens) == Values(tokens)
  {
    if |tokens| > 0 {
      AnswersAllDigits(tokens[1..]);
    }
  }

  /** The result argument of a raw packet: its third element, or "0". */
  function ResultArg(raw: seq<string>): string
    requires |raw| == 2 || |raw| == 3
  {
    if |raw| == 2 then DefaultResult else raw[2]
  }

  /** `decode_raw_packet(raw)` */
  function DecodeRawPacket(raw: seq<string>): (r: Decoded)
    ensures |raw| != 2 && |raw| != 3 ==> r == Rejected
    ensures |raw| == 2 || |raw| == 3 ==>
      (r == Rejected <==> PacketSplit(raw[0], raw[1], ResultArg(raw)).None?)
    ensures r.Decoded? ==> |r.packet.result| >= 1
    ensures (|raw| == 2 || |raw| == 3) && PacketSplit(raw[0], raw[1], ResultArg(raw)).Some? ==>
      (r == ConversionError <==> ParseInt(PacketSplit(raw[0], raw[1], ResultArg(raw)).value.val[2]).None?)
  {
    if |raw| == 0 then Rejected
    else if |raw| != 2 && |raw| != 3 then Rejected
    else
      var key, val := raw[0], raw[1];
      var rst := if |raw| == 2 then DefaultResult else raw[2];
      match PacketSplit(key, val, rst)
      case None => Rejected
      case Some(parts) =>
        match ParseInt(parts.val[2])
        case None => ConversionError
        case Some(points) =>
          Decoded(Packet(Values(parts.key), Answers(Split(parts.val[0], AnswerSep)),
                         parts.val[1], points, Values(parts.rst)))
  }

  /** A two-element packet decodes like the same packet with result "0". */
  lemma DecodeDefaultResult(key: string, val: string)
    ensures DecodeRawPacket([key, val]) == DecodeRawPacket([key, val, DefaultResult])
  {
  }

  /** The fields of a decoded packet are the integer values of the parts, in order. */
  lemma DecodedFields(raw: seq<string>)
    requires DecodeRawPacket(raw).Decoded?
    ensures var p := DecodeRawPacket(raw).packet;
      var valParts := Split(raw[1], PacketSep);
      && (forall i :: 0 <= i < KeyArity ==> p.key[i] == DigitsValue(Split(raw[0], PacketSep)[i]))
      && p.answers == Answers(Split(valParts[0], AnswerSep))
      && p.time == valParts[1]
      && ParseInt(valParts[2]) == Some(p.points)
      && p.result == Values(Split(ResultArg(raw), PacketSep))
  {
  }

  /** `decode_raw_packets(raws)`: each packet decoded on its own, order kept. */
  function DecodeRawPackets(raws: seq<seq<string>>): (r: seq<Decoded>)
    ensures |r| == |raws|
    ensures forall i :: 0 <= i < |raws| ==> r[i] == DecodeRawPacket(raws[i])
  {
    if |raws| == 0 then [] else [DecodeRawPacket(raws[0])] + DecodeRawPackets(raws[1..])
  }

  /** The text a client sends for a packet: numbers in decimal, the answers
      joined by commas. */
  function EncodePacket(p: Packet): seq<string>
  {
    [ Join(Decimals(p.key), PacketSep),
      Join([Join(Decimals(p.answers), AnswerSep), p.time, IntText(p.points)], PacketSep),
      Join(Decimals(p.result), PacketSep) ]
  }

  lemma DecimalsAvoid(ns: seq<nat>, c: char)
    requires !IsDigit(c)
    ensures forall i :: 0 <= i < |ns| ==> c !in Decimals(ns)[i]
  {
  }

  lemma DecimalsValues(ns: seq<nat>)
    ensures AllDigits(Decimals(ns)) && Values(Decimals(ns)) == ns
  {
  }

  lemma {:induction false} JoinedDecimalsAvoid(ns: seq<nat>, sep: char, c: char)
    requires !IsDigit(c) && c != sep
    ensures c !in Join(Decimals(ns), sep)
  {
    DecimalsAvoid(ns, c);
    if c in Join(Decimals(ns), sep) {
      JoinChars(Decimals(ns), sep, c);
    }
  }

  lemma IntTextAvoids(n: int, c: char)
    requires !IsDigit(c) && c != '-'
    ensures c !in IntText(n)
  {
  }

  /** The answers of a comma-joined answer list are that list. */
  lemma AnswersOfJoin(ns: seq<nat>)
    ensures Answers(Split(Join(Decimals(ns), AnswerSep), AnswerSep)) == ns
  {
    if |ns| == 0 {
      assert Split(Join(Decimals(ns), AnswerSep), AnswerSep) == [""];
    } else {
      DecimalsAvoid(ns, AnswerSep);
      SplitJoin(Decimals(ns), AnswerSep);
      DecimalsValues(ns);
      AnswersAllDigits(Decimals(ns));
    }
  }

  /** Round trip: decoding the text of a packet gives the packet back, for
      every packet whose time text holds no separator and whose result is
      non-empty (the only packets decoding produces). */
  lemma DecodeEncode(p: Packet)
    requires PacketSep !in p.time && |p.result| >= 1
    ensures DecodeRawPacket(EncodePacket(p)) == Decoded(p)
  {
    var raw := EncodePacket(p);
    DecimalsAvoid(p.key, PacketSep);
    DecimalsAvoid(p.result, PacketSep);
    DecimalsValues(p.key);
    DecimalsValues(p.result);
    SplitJoin(Decimals(p.key), PacketSep);
    SplitJoin(Decimals(p.result), PacketSep);
    var answers := Join(Decimals(p.answers), AnswerSep);
    JoinedDecimalsAvoid(p.answers, AnswerSep, PacketSep);
    IntTextAvoids(p.points, PacketSep);
    var valParts := [answers, p.time, IntText(p.points)];
    SplitJoin(valParts, PacketSep);
    SplitCount(raw[1], PacketSep);
    AnswersOfJoin(p.answers);
    var parts := PacketSplit(raw[0], raw[1], raw[2]);
    assert parts == Some(Parts(Decimals(p.key), valParts, Decimals(p.result)));
  }
}
