/** Streams that bring their own code tables, from payload to payload. */
module LzhOwnTables {
  import opened Words
  import opened Bits
  import opened Canonical
  import opened Lzh
  import opened LzhRun
  import opened LzhDynamic
  import opened LzhCoder

  /** Decompressing what was encoded with tables of its own gives it back, for every usable set of lengths up to 31
      and the metacode of the program, whenever no match at distance one was chosen. */
  lemma OwnTablesDecompress(meta: map<nat, Entry>, codes: seq<nat>, lengths: seq<nat>, sets: seq<Sets>, s: Sets, val: byte,
                            p: seq<byte>, data: seq<byte>, tail: seq<bit>, r: Option<seq<byte>>)
    requires |sets| == 5 && IsMetacode(meta, codes, lengths) && val / 16 == 0 && Announced(s, val) && NoUnitMatch(p, 0)
    requires AllBits(data) == AllBits([val]) +
      Announce(DirectWords(codes, lengths), s, val, Encode(CodesOf(s), p, 0, false) + tail)
    requires Decompresses(meta, sets, data, |p|, r)
    ensures r == Some(p)
  {
    var words, rest := DirectWords(codes, lengths), Encode(CodesOf(s), p, 0, false) + tail;
    MetaReads(meta, codes, lengths);
    Selector(data, val, Announce(words, s, val, rest));
    BringsBack(meta, words, s, val, rest);
    var t := TablesOf(s, rest, |p|, r);
    RoundTrip(t, s, p, tail);
  }
}
