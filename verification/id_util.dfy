/** The identifier lineage table of `hsim/id_util.py`: numbered participant
    and sample ids, the flat `[kind, id, parent]` table built from them, and
    the accessors that filter it and look a parent up. */
module IdUtil {
  import Decimal
  import opened Wrappers

  datatype Kind = Participant | Sample

  /** One `[kind, id, parent]` row of the table. */
  datatype IdRow = IdRow(kind: Kind, id: string, parent: string)

  /** The parent written on participant rows. */
  const NoParent: string := "-"

  /** `prefix + "_" + x` for the x-th id of a numbered list. */
  function NumberedId(prefix: string, x: nat): string {
    prefix + "_" + Decimal.FromNat(x)
  }

  /** Python's `range(n)` has `max(n, 0)` elements. */
  function RangeLength(n: int): nat {
    if n > 0 then n else 0
  }

  /** The ids `prefix_0 .. prefix_(n-1)`, appended one at a time. */
  function NumberedIds(prefix: string, n: nat): (r: seq<string>)
    ensures |r| == n
    ensures forall x :: 0 <= x < n ==> r[x] == NumberedId(prefix, x)
  {
    if n == 0 then [] else NumberedIds(prefix, n - 1) + [NumberedId(prefix, n - 1)]
  }

  function GenerateParticipantIds(htanId: string, numIds: int): (r: seq<string>)
    ensures |r| == RangeLength(numIds)
    ensures forall x :: 0 <= x < |r| ==> r[x] == htanId + "_" + Decimal.FromNat(x)
  {
    NumberedIds(htanId, RangeLength(numIds))
  }

  function GenerateSampleIds(participantId: string, numIds: int): (r: seq<string>)
    ensures |r| == RangeLength(numIds)
    ensures forall x :: 0 <= x < |r| ==> r[x] == participantId + "_" + Decimal.FromNat(x)
  {
    NumberedIds(participantId, RangeLength(numIds))
  }

  /** The inner loop of `generate_id_set`: one SAMPLE row per sample id,
      written with the current `parentId`, which is then moved to the sample
      just written when `counter` is even and back to the participant when it
      is odd. `counter` is never changed by the loop. With an even counter the
      rows form a chain; with an odd one every later row points at the
      participant. */
  function SampleRows(participantId: string, sampleIds: seq<string>, counter: int, parentId: string): (r: seq<IdRow>)
    ensures |r| == |sampleIds|
    ensures forall k :: 0 <= k < |r| ==> r[k].kind == Sample && r[k].id == sampleIds[k]
    ensures |r| > 0 ==> r[0].parent == parentId
    ensures counter % 2 == 0 ==> forall k :: 0 < k < |r| ==> r[k].parent == sampleIds[k - 1]
    ensures counter % 2 != 0 ==> forall k :: 0 < k < |r| ==> r[k].parent == participantId
  {
    if |sampleIds| == 0 then
      []
    else
      var next := if counter % 2 == 0 then sampleIds[0] else participantId;
      [IdRow(Sample, sampleIds[0], parentId)] + SampleRows(participantId, sampleIds[1..], counter, next)
  }

  /** One participant's rows: its PARTICIPANT row, then its SAMPLE rows. */
  function ParticipantBlock(participantId: string, numSamples: int): (r: seq<IdRow>)
    ensures |r| == 1 + RangeLength(numSamples)
    ensures r[0] == IdRow(Participant, participantId, NoParent)
  {
    [IdRow(Participant, participantId, NoParent)]
      + SampleRows(participantId, GenerateSampleIds(participantId, numSamples), 0, participantId)
  }

  /** The blocks of the given participants, in order. */
  function Blocks(participantIds: seq<string>, numSamples: int): seq<IdRow> {
    if |participantIds| == 0 then
      []
    else
      ParticipantBlock(participantIds[0], numSamples) + Blocks(participantIds[1..], numSamples)
  }

  /** `generate_id_set`: the blocks of the participants `htanId_0 ..`. */
  function GenerateIdSet(htanId: string, numParticipants: int, numSamplesPerParticipant: int): seq<IdRow> {
    Blocks(GenerateParticipantIds(htanId, numParticipants), numSamplesPerParticipant)
  }

  /** The row at position `k` of `table` has kind `kind` and id `x`. */
  predicate RowHas(table: seq<IdRow>, k: int, kind: Kind, x: string) {
    0 <= k < |table| && table[k].kind == kind && table[k].id == x
  }

  /** The ids of the rows of one kind, in table order. */
  function ExtractIds(table: seq<IdRow>, kind: Kind): (r: seq<string>)
    ensures |r| <= |table|
    ensures forall x :: x in r <==> exists k :: RowHas(table, k, kind, x)
  {
    if |table| == 0 then
      []
    else
      var rest := ExtractIds(table[1..], kind);
      var r := if table[0].kind == kind then [table[0].id] + rest else rest;
      forall x | x in r
        ensures exists k :: RowHas(table, k, kind, x)
      {
        if table[0].kind == kind && x == table[0].id {
          assert RowHas(table, 0, kind, x);
        } else {
          assert x in rest;
          var k :| RowHas(table[1..], k, kind, x);
          assert RowHas(table, k + 1, kind, x);
        }
      }
      forall x, k | RowHas(table, k, kind, x)
        ensures x in r
      {
        if k > 0 {
          assert RowHas(table[1..], k - 1, kind, x);
        }
      }
      r
  }

  function ExtractParticipantIdList(table: seq<IdRow>): (r: seq<string>)
    ensures |r| <= |table|
    ensures forall x :: x in r <==> exists k :: RowHas(table, k, Participant, x)
  {
    ExtractIds(table, Participant)
  }

  function ExtractSampleIdList(table: seq<IdRow>): (r: seq<string>)
    ensures |r| <= |table|
    ensures forall x :: x in r <==> exists k :: RowHas(table, k, Sample, x)
  {
    ExtractIds(table, Sample)
  }

  /** `k` is the first position of `table` whose id is `target`. */
  predicate FirstWithId(table: seq<IdRow>, k: int, target: string) {
    && 0 <= k < |table|
    && table[k].id == target
    && forall m :: 0 <= m < k ==> table[m].id != target
  }

  /** The parent field of the first row whose id is `target`; `None` when no
      row has that id (the Python function then falls off its loop). */
  function ExtractParentId(table: seq<IdRow>, target: string): (r: Option<string>)
    ensures r.None? <==> forall k :: 0 <= k < |table| ==> table[k].id != target
    ensures r.Some? ==> exists k :: FirstWithId(table, k, target) && r.value == table[k].parent
  {
    if |table| == 0 then
      None
    else if table[0].id == target then
      assert FirstWithId(table, 0, target);
      Some(table[0].parent)
    else
      var r := ExtractParentId(table[1..], target);
      assert r.Some? ==> exists k :: FirstWithId(table, k, target) && r.value == table[k].parent by {
        if r.Some? {
          var k :| FirstWithId(table[1..], k, target) && r.value == table[1..][k].parent;
          assert FirstWithId(table, k + 1, target);
        }
      }
      r
  }
}
