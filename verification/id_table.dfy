/** Properties of the table `generate_id_set` builds: its size and layout,
    the chain of parents inside each participant's block, the uniqueness of
    its ids, and what the accessors return on it. */
module IdTable {
  import Decimal
  import opened Wrappers
  import opened IdUtil

  /** Width of one participant's block: its own row and its samples. */
  function BlockWidth(numSamples: int): nat {
    1 + RangeLength(numSamples)
  }

  /** Id of participant `i` under atlas `htanId`. */
  function ParticipantId(htanId: string, i: nat): string {
    NumberedId(htanId, i)
  }

  /** Id of sample `j` of participant `i`. */
  function SampleId(htanId: string, i: nat, j: nat): string {
    NumberedId(ParticipantId(htanId, i), j)
  }

  /** Parent of sample `j` of participant `i` as the code assigns it: the
      participant for the first sample, the previous sample afterwards. */
  function ChainParent(htanId: string, i: nat, j: nat): string {
    if j == 0 then ParticipantId(htanId, i) else SampleId(htanId, i, j - 1)
  }

  /** Row `j` of participant `i`'s block: its PARTICIPANT row for `j == 0`,
      else the row of sample `j - 1`. */
  function ExpectedRow(htanId: string, i: nat, j: nat): IdRow {
    if j == 0 then IdRow(Participant, ParticipantId(htanId, i), NoParent)
    else IdRow(Sample, SampleId(htanId, i, j - 1), ChainParent(htanId, i, j - 1))
  }

  /** The samples of each participant, participant after participant. */
  function SampleIdsOf(participantIds: seq<string>, numSamples: int): seq<string> {
    if |participantIds| == 0 then []
    else GenerateSampleIds(participantIds[0], numSamples) + SampleIdsOf(participantIds[1..], numSamples)
  }

  // ---------------------------------------------------------------------
  // Size and layout

  /** Start of block `i` when every block is `width` rows wide; it equals
      `i * width` (see `OffsetIsProduct`) but keeps proofs linear. */
  function Offset(i: nat, width: nat): nat {
    if i == 0 then 0 else width + Offset(i - 1, width)
  }

  lemma {:induction false} OffsetIsProduct(i: nat, width: nat)
    ensures Offset(i, width) == i * width
  {
    if i > 0 {
      OffsetIsProduct(i - 1, width);
      assert i * width == width + (i - 1) * width;
    }
  }

  /** Concatenation of a sequence of blocks. */
  function Flatten<X>(xs: seq<seq<X>>): seq<X> {
    if |xs| == 0 then [] else xs[0] + Flatten(xs[1..])
  }

  lemma {:induction false} FlattenLength<X>(xs: seq<seq<X>>, width: nat)
    requires forall k :: 0 <= k < |xs| ==> |xs[k]| == width
    ensures |Flatten(xs)| == Offset(|xs|, width)
  {
    if |xs| > 0 {
      FlattenLength(xs[1..], width);
    }
  }

  lemma {:induction false} FlattenAt<X>(xs: seq<seq<X>>, width: nat, i: nat, j: nat)
    requires forall k :: 0 <= k < |xs| ==> |xs[k]| == width
    requires i < |xs| && j < width
    ensures Offset(i, width) + j < |Flatten(xs)|
    ensures Flatten(xs)[Offset(i, width) + j] == xs[i][j]
  {
    FlattenLength(xs, width);
    if i > 0 {
      FlattenAt(xs[1..], width, i - 1, j);
    }
  }

  /** Every position of a flattened sequence of equal blocks lies in a block. */
  lemma {:induction false} FlattenLocate<X>(xs: seq<seq<X>>, width: nat, m: nat) returns (i: nat, j: nat)
    requires forall k :: 0 <= k < |xs| ==> |xs[k]| == width
    requires m < |Flatten(xs)|
    ensures i < |xs| && j < width
    ensures m == Offset(i, width) + j
  {
    FlattenLength(xs, width);
    if m < width {
      i, j := 0, m;
    } else {
      FlattenLength(xs[1..], width);
      var i';
      i', j := FlattenLocate(xs[1..], width, m - width);
      i := i' + 1;
    }
  }

  /** The blocks of the given participants, one per participant. */
  function BlockSeq(participantIds: seq<string>, numSamples: int): (r: seq<seq<IdRow>>)
    ensures |r| == |participantIds|
    ensures forall k :: 0 <= k < |r| ==> r[k] == ParticipantBlock(participantIds[k], numSamples)
    ensures forall k :: 0 <= k < |r| ==> |r[k]| == BlockWidth(numSamples)
  {
    if |participantIds| == 0 then []
    else [ParticipantBlock(participantIds[0], numSamples)] + BlockSeq(participantIds[1..], numSamples)
  }

  lemma {:induction false} BlocksFlatten(participantIds: seq<string>, numSamples: int)
    ensures Blocks(participantIds, numSamples) == Flatten(BlockSeq(participantIds, numSamples))
  {
    if |participantIds| > 0 {
      BlocksFlatten(participantIds[1..], numSamples);
      assert BlockSeq(participantIds, numSamples)[1..] == BlockSeq(participantIds[1..], numSamples);
    }
  }

  /** The table has `P * (1 + S)` rows. */
  lemma GeneratedLength(htanId: string, numParticipants: int, numSamples: int)
    ensures |GenerateIdSet(htanId, numParticipants, numSamples)|
            == RangeLength(numParticipants) * (1 + RangeLength(numSamples))
  {
    var pids := GenerateParticipantIds(htanId, numParticipants);
    BlocksFlatten(pids, numSamples);
    FlattenLength(BlockSeq(pids, numSamples), BlockWidth(numSamples));
    OffsetIsProduct(RangeLength(numParticipants), BlockWidth(numSamples));
  }

  /** Row `j` of block `i` sits at position `m = Offset(i, 1 + S) + j`,
      that is `i * (1 + S) + j` (see `OffsetIsProduct`): block `i` is
      participant `htanId_i` with no parent, followed by its samples
      `htanId_i_0 ..` in order, each parented as `ChainParent` says. */
  lemma GeneratedRowAtPosition(htanId: string, numParticipants: int, numSamples: int, m: nat, i: nat, j: nat)
    requires i < RangeLength(numParticipants) && j < BlockWidth(numSamples)
    requires m == Offset(i, BlockWidth(numSamples)) + j
    ensures m < |GenerateIdSet(htanId, numParticipants, numSamples)|
    ensures GenerateIdSet(htanId, numParticipants, numSamples)[m] == ExpectedRow(htanId, i, j)
  {
    TableRowInBlock(htanId, numParticipants, numSamples, m, i, j);
    BlockRow(htanId, i, numSamples, j);
  }

  /** Position `Offset(i, 1 + S) + j` of the table is row `j` of block `i`. */
  lemma TableRowInBlock(htanId: string, numParticipants: int, numSamples: int, m: nat, i: nat, j: nat)
    requires i < RangeLength(numParticipants) && j < BlockWidth(numSamples)
    requires m == Offset(i, BlockWidth(numSamples)) + j
    ensures m < |GenerateIdSet(htanId, numParticipants, numSamples)|
    ensures GenerateIdSet(htanId, numParticipants, numSamples)[m]
            == ParticipantBlock(ParticipantId(htanId, i), numSamples)[j]
  {
    var pids := GenerateParticipantIds(htanId, numParticipants);
    BlocksAt(pids, numSamples, i, j);
    assert pids[i] == ParticipantId(htanId, i);
  }

  /** Position `Offset(i, 1 + S) + j` of the blocks of `participantIds` is
      row `j` of the block of participant `i`. */
  lemma BlocksAt(participantIds: seq<string>, numSamples: int, i: nat, j: nat)
    requires i < |participantIds| && j < BlockWidth(numSamples)
    ensures Offset(i, BlockWidth(numSamples)) + j < |Blocks(participantIds, numSamples)|
    ensures Blocks(participantIds, numSamples)[Offset(i, BlockWidth(numSamples)) + j]
            == ParticipantBlock(participantIds[i], numSamples)[j]
  {
    var blocks := BlockSeq(participantIds, numSamples);
    BlocksFlatten(participantIds, numSamples);
    FlattenAt(blocks, BlockWidth(numSamples), i, j);
  }

  /** Row `j` of participant `i`'s block. */
  lemma BlockRow(htanId: string, i: nat, numSamples: int, j: nat)
    requires j < BlockWidth(numSamples)
    ensures ParticipantBlock(ParticipantId(htanId, i), numSamples)[j] == ExpectedRow(htanId, i, j)
  {
    var pid := ParticipantId(htanId, i);
    if j > 0 {
      var sids := GenerateSampleIds(pid, numSamples);
      var rows := SampleRows(pid, sids, 0, pid);
      assert ParticipantBlock(pid, numSamples)[j] == rows[j - 1];
      assert rows[j - 1].id == SampleId(htanId, i, j - 1);
      if j > 1 {
        assert rows[j - 1].parent == sids[j - 2];
      }
    }
  }

  /** Every position of the table is some row of some block. */
  lemma LocatePosition(htanId: string, numParticipants: int, numSamples: int, m: nat) returns (i: nat, j: nat)
    requires m < |GenerateIdSet(htanId, numParticipants, numSamples)|
    ensures i < RangeLength(numParticipants) && j < BlockWidth(numSamples)
    ensures m == Offset(i, BlockWidth(numSamples)) + j
  {
    var pids := GenerateParticipantIds(htanId, numParticipants);
    BlocksFlatten(pids, numSamples);
    i, j := FlattenLocate(BlockSeq(pids, numSamples), BlockWidth(numSamples), m);
  }

  // ---------------------------------------------------------------------
  // Uniqueness of the generated ids

  /** In `c + "_" + d` the separator sits right after `c`. */
  lemma SeparatorAt(c: string, d: string)
    ensures (c + "_" + d)[|c|] == '_'
    ensures forall k :: 0 <= k < |c| ==> (c + "_" + d)[k] == c[k]
  {
  }

  /** Splitting `a + "_" + b` at its first separator recovers a digit string `a`. */
  lemma SplitAtSeparator(a: string, b: string, c: string, d: string)
    requires Decimal.AllDigits(a) && Decimal.AllDigits(c)
    requires a + "_" + b == c + "_" + d
    ensures a == c && b == d
  {
    var s := a + "_" + b;
    SeparatorAt(a, b);
    SeparatorAt(c, d);
    if |a| != |c| {
      assert false;
    }
    assert a == s[..|a|] == c;
    assert b == s[|a| + 1..] == d;
  }

  /** A digit string has no separator in it. */
  lemma NoSeparator(a: string, c: string, d: string)
    requires Decimal.AllDigits(a)
    ensures a != c + "_" + d
  {
    SeparatorAt(c, d);
    if a == c + "_" + d {
      assert false;
    }
  }

  lemma SamePrefix(p: string, x: string, y: string)
    requires p + "_" + x == p + "_" + y
    ensures x == y
  {
    assert x == (p + "_" + x)[|p| + 1..];
    assert y == (p + "_" + y)[|p| + 1..];
  }

  lemma ParticipantIdsDistinct(htanId: string, i: nat, i2: nat)
    requires i != i2
    ensures ParticipantId(htanId, i) != ParticipantId(htanId, i2)
  {
    if ParticipantId(htanId, i) == ParticipantId(htanId, i2) {
      SamePrefix(htanId, Decimal.FromNat(i), Decimal.FromNat(i2));
      Decimal.FromNatInjective(i, i2);
    }
  }

  lemma ParticipantIsNoSample(htanId: string, i: nat, i2: nat, j: nat)
    ensures ParticipantId(htanId, i) != SampleId(htanId, i2, j)
  {
    var di, di2, dj := Decimal.FromNat(i), Decimal.FromNat(i2), Decimal.FromNat(j);
    assert SampleId(htanId, i2, j) == htanId + "_" + (di2 + "_" + dj);
    if ParticipantId(htanId, i) == SampleId(htanId, i2, j) {
      SamePrefix(htanId, di, di2 + "_" + dj);
      NoSeparator(di, di2, dj);
    }
  }

  lemma SampleIdsDistinct(htanId: string, i: nat, j: nat, i2: nat, j2: nat)
    requires i != i2 || j != j2
    ensures SampleId(htanId, i, j) != SampleId(htanId, i2, j2)
  {
    var di, di2 := Decimal.FromNat(i), Decimal.FromNat(i2);
    var dj, dj2 := Decimal.FromNat(j), Decimal.FromNat(j2);
    assert SampleId(htanId, i, j) == htanId + "_" + (di + "_" + dj);
    assert SampleId(htanId, i2, j2) == htanId + "_" + (di2 + "_" + dj2);
    if SampleId(htanId, i, j) == SampleId(htanId, i2, j2) {
      SamePrefix(htanId, di + "_" + dj, di2 + "_" + dj2);
      SplitAtSeparator(di, dj, di2, dj2);
      Decimal.FromNatInjective(i, i2);
      Decimal.FromNatInjective(j, j2);
    }
  }

  /** Distinct positions of the layout carry distinct ids. */
  lemma ExpectedIdsDistinct(htanId: string, i: nat, j: nat, i2: nat, j2: nat)
    requires i != i2 || j != j2
    ensures ExpectedRow(htanId, i, j).id != ExpectedRow(htanId, i2, j2).id
  {
    if j == 0 && j2 == 0 {
      ParticipantIdsDistinct(htanId, i, i2);
    } else if j == 0 {
      ParticipantIsNoSample(htanId, i, i2, j2 - 1);
    } else if j2 == 0 {
      ParticipantIsNoSample(htanId, i2, i, j - 1);
    } else {
      SampleIdsDistinct(htanId, i, j - 1, i2, j2 - 1);
    }
  }

  lemma IdsDifferAt(htanId: string, numParticipants: int, numSamples: int, m: nat, k: nat)
    requires m < |GenerateIdSet(htanId, numParticipants, numSamples)|
    requires k < |GenerateIdSet(htanId, numParticipants, numSamples)|
    requires m != k
    ensures GenerateIdSet(htanId, numParticipants, numSamples)[m].id
            != GenerateIdSet(htanId, numParticipants, numSamples)[k].id
  {
    var i, j := LocatePosition(htanId, numParticipants, numSamples, m);
    var i2, j2 := LocatePosition(htanId, numParticipants, numSamples, k);
    GeneratedRowAtPosition(htanId, numParticipants, numSamples, m, i, j);
    GeneratedRowAtPosition(htanId, numParticipants, numSamples, k, i2, j2);
    ExpectedIdsDistinct(htanId, i, j, i2, j2);
  }

  /** No id occurs twice in a generated table. */
  lemma GeneratedIdsUnique(htanId: string, numParticipants: int, numSamples: int)
    ensures var t := GenerateIdSet(htanId, numParticipants, numSamples);
            forall m, k :: 0 <= m < |t| && 0 <= k < |t| && m != k ==> t[m].id != t[k].id
  {
    var t := GenerateIdSet(htanId, numParticipants, numSamples);
    forall m, k | 0 <= m < |t| && 0 <= k < |t| && m != k
      ensures t[m].id != t[k].id
    {
      IdsDifferAt(htanId, numParticipants, numSamples, m, k);
    }
  }

  // ---------------------------------------------------------------------
  // Parent lookup on a generated table

  /** Looking up any generated id finds the parent written on its row. */
  lemma ParentOfGeneratedRow(htanId: string, numParticipants: int, numSamples: int, i: nat, j: nat)
    requires i < RangeLength(numParticipants) && j < BlockWidth(numSamples)
    ensures ExtractParentId(GenerateIdSet(htanId, numParticipants, numSamples), ExpectedRow(htanId, i, j).id)
            == Some(ExpectedRow(htanId, i, j).parent)
  {
    var t := GenerateIdSet(htanId, numParticipants, numSamples);
    var pos := Offset(i, BlockWidth(numSamples)) + j;
    GeneratedRowAtPosition(htanId, numParticipants, numSamples, pos, i, j);
    GeneratedIdsUnique(htanId, numParticipants, numSamples);
    var target := ExpectedRow(htanId, i, j).id;
    var r := ExtractParentId(t, target);
    assert t[pos].id == target;
    var k :| FirstWithId(t, k, target) && r.value == t[k].parent;
    assert k == pos;
  }

  /** A sample's parent is its participant for sample 0 and the previous
      sample of the same participant otherwise. */
  lemma SampleParent(htanId: string, numParticipants: int, numSamples: int, i: nat, j: nat)
    requires i < RangeLength(numParticipants) && j < RangeLength(numSamples)
    ensures ExtractParentId(GenerateIdSet(htanId, numParticipants, numSamples), SampleId(htanId, i, j))
            == Some(if j == 0 then ParticipantId(htanId, i) else SampleId(htanId, i, j - 1))
  {
    ParentOfGeneratedRow(htanId, numParticipants, numSamples, i, j + 1);
  }

  /** A participant's parent is the `"-"` placeholder. */
  lemma ParticipantParent(htanId: string, numParticipants: int, numSamples: int, i: nat)
    requires i < RangeLength(numParticipants)
    ensures ExtractParentId(GenerateIdSet(htanId, numParticipants, numSamples), ParticipantId(htanId, i))
            == Some(NoParent)
  {
    ParentOfGeneratedRow(htanId, numParticipants, numSamples, i, 0);
  }

  // ---------------------------------------------------------------------
  // The accessors on a generated table

  /** Filtering distributes over concatenation, so order is kept. */
  lemma {:induction false} ExtractConcat(a: seq<IdRow>, b: seq<IdRow>, kind: Kind)
    ensures ExtractIds(a + b, kind) == ExtractIds(a, kind) + ExtractIds(b, kind)
  {
    if |a| == 0 {
      assert a + b == b;
    } else {
      assert (a + b)[0] == a[0];
      assert (a + b)[1..] == a[1..] + b;
      ExtractConcat(a[1..], b, kind);
    }
  }

  /** Every row is either a participant or a sample. */
  lemma {:induction false} ExtractPartition(table: seq<IdRow>)
    ensures |ExtractParticipantIdList(table)| + |ExtractSampleIdList(table)| == |table|
  {
    if |table| > 0 {
      ExtractPartition(table[1..]);
    }
  }

  lemma {:induction false} SampleRowsExtract(participantId: string, sampleIds: seq<string>, counter: int, parentId: string)
    ensures ExtractIds(SampleRows(participantId, sampleIds, counter, parentId), Sample) == sampleIds
    ensures ExtractIds(SampleRows(participantId, sampleIds, counter, parentId), Participant) == []
  {
    if |sampleIds| > 0 {
      var next := if counter % 2 == 0 then sampleIds[0] else participantId;
      var rows := SampleRows(participantId, sampleIds, counter, parentId);
      var tail := SampleRows(participantId, sampleIds[1..], counter, next);
      assert rows == [IdRow(Sample, sampleIds[0], parentId)] + tail;
      assert rows[1..] == tail;
      SampleRowsExtract(participantId, sampleIds[1..], counter, next);
      assert sampleIds == [sampleIds[0]] + sampleIds[1..];
    }
  }

  lemma {:induction false} BlocksExtract(participantIds: seq<string>, numSamples: int)
    ensures ExtractIds(Blocks(participantIds, numSamples), Participant) == participantIds
    ensures ExtractIds(Blocks(participantIds, numSamples), Sample) == SampleIdsOf(participantIds, numSamples)
  {
    if |participantIds| > 0 {
      var pid := participantIds[0];
      var head := [IdRow(Participant, pid, NoParent)];
      var rows := SampleRows(pid, GenerateSampleIds(pid, numSamples), 0, pid);
      SampleRowsExtract(pid, GenerateSampleIds(pid, numSamples), 0, pid);
      ExtractConcat(head, rows, Participant);
      ExtractConcat(head, rows, Sample);
      ExtractConcat(head + rows, Blocks(participantIds[1..], numSamples), Participant);
      ExtractConcat(head + rows, Blocks(participantIds[1..], numSamples), Sample);
      BlocksExtract(participantIds[1..], numSamples);
    }
  }

  /** The participant ids read back from a generated table are exactly the
      generated participant ids, in order. */
  lemma GeneratedParticipants(htanId: string, numParticipants: int, numSamples: int)
    ensures ExtractParticipantIdList(GenerateIdSet(htanId, numParticipants, numSamples))
            == GenerateParticipantIds(htanId, numParticipants)
    ensures |ExtractParticipantIdList(GenerateIdSet(htanId, numParticipants, numSamples))|
            == RangeLength(numParticipants)
  {
    BlocksExtract(GenerateParticipantIds(htanId, numParticipants), numSamples);
  }

  /** The sample ids read back are each participant's generated samples,
      participant after participant: `P * S` of them. */
  lemma GeneratedSamples(htanId: string, numParticipants: int, numSamples: int)
    ensures ExtractSampleIdList(GenerateIdSet(htanId, numParticipants, numSamples))
            == SampleIdsOf(GenerateParticipantIds(htanId, numParticipants), numSamples)
    ensures |ExtractSampleIdList(GenerateIdSet(htanId, numParticipants, numSamples))|
            == RangeLength(numParticipants) * RangeLength(numSamples)
  {
    var pids := GenerateParticipantIds(htanId, numParticipants);
    BlocksExtract(pids, numSamples);
    SampleIdsOfLength(pids, numSamples);
    OffsetIsProduct(|pids|, RangeLength(numSamples));
  }

  lemma {:induction false} SampleIdsOfLength(participantIds: seq<string>, numSamples: int)
    ensures |SampleIdsOf(participantIds, numSamples)| == Offset(|participantIds|, RangeLength(numSamples))
  {
    if |participantIds| > 0 {
      SampleIdsOfLength(participantIds[1..], numSamples);
    }
  }


  /** The worked example: atlas HTA1 with 2 participants of 4 samples each. */
  lemma Hta1ExampleRows()
    ensures var t := GenerateIdSet("HTA1", 2, 4);
            && |t| == 10
            && t[0] == IdRow(Participant, "HTA1_0", "-")
            && t[1] == IdRow(Sample, "HTA1_0_0", "HTA1_0")
            && t[2] == IdRow(Sample, "HTA1_0_1", "HTA1_0_0")
  {
    assert Decimal.FromNat(0) == "0";
    assert Decimal.FromNat(1) == "1";
    GeneratedLength("HTA1", 2, 4);
    GeneratedRowAtPosition("HTA1", 2, 4, 0, 0, 0);
    GeneratedRowAtPosition("HTA1", 2, 4, 1, 0, 1);
    GeneratedRowAtPosition("HTA1", 2, 4, 2, 0, 2);
  }

  lemma Hta1ExampleCounts()
    ensures |ExtractParticipantIdList(GenerateIdSet("HTA1", 2, 4))| == 2
    ensures |ExtractSampleIdList(GenerateIdSet("HTA1", 2, 4))| == 8
  {
    GeneratedParticipants("HTA1", 2, 4);
    GeneratedSamples("HTA1", 2, 4);
  }

  lemma Hta1ExampleParent()
    ensures ExtractParentId(GenerateIdSet("HTA1", 2, 4), "HTA1_0_1") == Some("HTA1_0_0")
  {
    assert Decimal.FromNat(0) == "0";
    assert Decimal.FromNat(1) == "1";
    assert SampleId("HTA1", 0, 1) == "HTA1_0_1";
    assert SampleId("HTA1", 0, 0) == "HTA1_0_0";
    SampleParent("HTA1", 2, 4, 0, 1);
  }
}
