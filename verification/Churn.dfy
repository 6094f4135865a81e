// The churn counters: one per (stage, file, region), bumped once per hunk of a stage's diff.
module Churn {
  import opened DiffHunks

  datatype Bucket = Bucket(stage: string, file: string, region: nat)

  type Counters = map<Bucket, nat>

  function CountOf(c: Counters, b: Bucket): nat {
    if b in c then c[b] else 0
  }

  // SUM(edit_count) over the table.
  ghost function Total(c: Counters): nat {
    if c == map[] then 0
    else
      var b :| b in c;
      c[b] + Total(c - {b})
  }

  lemma {:induction false} TotalSplits(c: Counters, b: Bucket)
    requires b in c
    ensures Total(c) == c[b] + Total(c - {b})
    decreases |c|
  {
    var first :| b in c && first in c && Total(c) == c[first] + Total(c - {first});
    if first != b {
      TotalSplits(c - {first}, b);
      TotalSplits(c - {b}, first);
      assert c - {first} - {b} == c - {b} - {first};
    }
  }

  lemma {:induction false} TotalAfterBump(c: Counters, b: Bucket)
    ensures Total(c[b := CountOf(c, b) + 1]) == Total(c) + 1
  {
    var next := c[b := CountOf(c, b) + 1];
    TotalSplits(next, b);
    assert next - {b} == c - {b};
    if b in c {
      TotalSplits(c, b);
    } else {
      assert c - {b} == c;
    }
  }

  function BucketOf(stage: string, regionLines: nat, h: Hunk): Bucket
    requires regionLines > 0
  {
    Bucket(stage, h.file, h.start / regionLines)
  }

  function Buckets(stage: string, regionLines: nat, hs: seq<Hunk>): (r: seq<Bucket>)
    requires regionLines > 0
    ensures |r| == |hs|
  {
    if hs == [] then []
    else Buckets(stage, regionLines, hs[..|hs| - 1]) + [BucketOf(stage, regionLines, hs[|hs| - 1])]
  }

  // Each counter grew by its own number of hunks, and all together by the number of hunks.
  ghost predicate Grew(before: Counters, after: Counters, bs: seq<Bucket>) {
    && (forall b :: CountOf(after, b) == CountOf(before, b) + multiset(bs)[b])
    && Total(after) == Total(before) + |bs|
  }

  // The hunks of `file` that start in region `region`.
  function HunksInRegion(hs: seq<Hunk>, regionLines: nat, file: string, region: nat): set<nat>
    requires regionLines > 0
  {
    set i: nat | i < |hs| && hs[i].file == file && region * regionLines <= hs[i].start < (region + 1) * regionLines
  }

  lemma {:induction false} RegionsAreQuotients(start: nat, regionLines: nat, region: nat)
    requires regionLines > 0
    ensures start / regionLines == region <==> region * regionLines <= start < (region + 1) * regionLines
  {
    var q := start / regionLines;
    assert start == q * regionLines + start % regionLines;
    if q < region {
      assert (q + 1) * regionLines <= region * regionLines;
    } else if q > region {
      assert (region + 1) * regionLines <= q * regionLines;
    }
  }

  lemma {:induction false} OneMoreInRegion(hs: seq<Hunk>, regionLines: nat, file: string, region: nat, h: Hunk)
    requires regionLines > 0
    ensures |HunksInRegion(hs + [h], regionLines, file, region)|
         == |HunksInRegion(hs, regionLines, file, region)|
          + if h.file == file && h.start / regionLines == region then 1 else 0
  {
    var before := HunksInRegion(hs, regionLines, file, region);
    var now := HunksInRegion(hs + [h], regionLines, file, region);
    RegionsAreQuotients(h.start, regionLines, region);
    if h.file == file && h.start / regionLines == region {
      assert now == before + {|hs|};
    } else {
      assert now == before;
    }
  }

  // A bucket's share counts the hunks of its file that start in its region, and other stages have none.
  lemma {:induction false} ShareIsHunksInRegion(stage: string, regionLines: nat, hs: seq<Hunk>, b: Bucket)
    requires regionLines > 0
    ensures multiset(Buckets(stage, regionLines, hs))[b]
         == if b.stage == stage then |HunksInRegion(hs, regionLines, b.file, b.region)| else 0
  {
    if hs != [] {
      var init, last := hs[..|hs| - 1], hs[|hs| - 1];
      ShareIsHunksInRegion(stage, regionLines, init, b);
      OneMoreInRegion(init, regionLines, b.file, b.region, last);
      assert hs == init + [last];
      assert multiset(Buckets(stage, regionLines, hs))
          == multiset(Buckets(stage, regionLines, init)) + multiset{BucketOf(stage, regionLines, last)};
    }
  }

  lemma {:induction false} GrowsByOne(before: Counters, after: Counters, bs: seq<Bucket>, b: Bucket)
    requires Grew(before, after, bs)
    ensures Grew(before, after[b := CountOf(after, b) + 1], bs + [b])
  {
    TotalAfterBump(after, b);
    assert multiset(bs + [b]) == multiset(bs) + multiset{b};
  }

  lemma {:induction false} OneMoreHunk(before: Counters, after: Counters, stage: string, regionLines: nat,
                                       hs: seq<Hunk>, i: nat)
    requires regionLines > 0 && i < |hs| && Grew(before, after, Buckets(stage, regionLines, hs[..i]))
    ensures var b := BucketOf(stage, regionLines, hs[i]);
            Grew(before, after[b := CountOf(after, b) + 1], Buckets(stage, regionLines, hs[..i + 1]))
  {
    assert hs[..i + 1][..i] == hs[..i];
    GrowsByOne(before, after, Buckets(stage, regionLines, hs[..i]), BucketOf(stage, regionLines, hs[i]));
  }

  class ChurnTable {
    var counters: Counters

    constructor ()
      ensures counters == map[]
    {
      counters := map[];
    }

    // Insert at one or add one; returns the new count.
    method Bump(b: Bucket) returns (n: nat)
      modifies this
      ensures n == CountOf(old(counters), b) + 1
      ensures counters == old(counters)[b := n]
    {
      n := if b in counters then counters[b] + 1 else 1;
      counters := counters[b := n];
    }

    // Each bucket grows by the number of hunks that fall into it, so all counters together grow by the
    // number of hunks. A diff that does not parse leaves nothing behind once its transaction rolls back.
    method RecordChurn(stage: string, lines: seq<string>, regionLines: nat) returns (parsed: Outcome)
      requires regionLines > 0
      modifies this
      ensures parsed == Finish(ParseLines(Start, lines))
      ensures parsed.Error? ==> counters == old(counters)
      ensures parsed.Hunks? ==> forall file: string, region: nat ::
                CountOf(counters, Bucket(stage, file, region))
                == CountOf(old(counters), Bucket(stage, file, region))
                   + |HunksInRegion(parsed.hunks, regionLines, file, region)|
      ensures forall b: Bucket :: b.stage != stage ==> CountOf(counters, b) == CountOf(old(counters), b)
      ensures parsed.Hunks? ==> Total(counters) == Total(old(counters)) + |parsed.hunks|
      ensures parsed.Hunks? ==>
                Grew(old(counters), counters, Buckets(stage, regionLines, parsed.hunks))
    {
      parsed := IterHunks(lines);
      if parsed.Error? {
        return;
      }
      BumpAll(stage, parsed.hunks, regionLines);
      forall b: Bucket
        ensures multiset(Buckets(stage, regionLines, parsed.hunks))[b]
             == if b.stage == stage then |HunksInRegion(parsed.hunks, regionLines, b.file, b.region)| else 0
      {
        ShareIsHunksInRegion(stage, regionLines, parsed.hunks, b);
      }
    }

    method BumpAll(stage: string, hs: seq<Hunk>, regionLines: nat)
      requires regionLines > 0
      modifies this
      ensures Grew(old(counters), counters, Buckets(stage, regionLines, hs))
    {
      for i := 0 to |hs|
        invariant Grew(old(counters), counters, Buckets(stage, regionLines, hs[..i]))
      {
        ghost var before := counters;
        var b := BucketOf(stage, regionLines, hs[i]);
        OneMoreHunk(old(counters), before, stage, regionLines, hs, i);
        var n := Bump(b);
        assert counters == before[b := CountOf(before, b) + 1];
      }
      assert hs[..|hs|] == hs;
    }
  }
}
