/** `hsim/json_reader.py`: the reader of a simulated HTAN JSON document. It
    indexes each schema's attribute positions and checks that every assay
    record's parent biospecimen id names a biospecimen of the same atlas.
    The document is the already-parsed JSON value. */
module JsonReader {
  import opened Wrappers
  import opened JsonValue

  /** A record is a positional row of values. */
  type Record = seq<Value>

  /** A data list inside an atlas; its `record_list` member may be absent. */
  datatype DataList = DataList(recordList: Option<seq<Record>>)

  /** An atlas maps a list name (a record type) to its data list. */
  type Atlas = map<string, DataList>

  /** A schema entry: the record type and its attribute ids in column order. */
  datatype SchemaEntry = SchemaEntry(dataSchema: string, attributeIds: seq<string>)

  datatype Document = Document(atlases: seq<Atlas>, schemas: seq<SchemaEntry>)

  /** Record type name to attribute id to column position. */
  type SchemaIndex = map<string, map<string, nat>>

  /** The exception that aborts reading: `KeyError` for an unknown list or
      attribute in the index, for an atlas without the list or for a list
      without `record_list`; `IndexError` for a record too short. */
  datatype ReaderError =
    | UnknownList(name: string)
    | UnknownAttribute(name: string, attribute: string)
    | MissingList(name: string)
    | MissingRecordList(name: string)
    | RecordTooShort(name: string, position: nat)

  const BiospecimenList: string := "Biospecimen"
  const BiospecimenIdField: string := "bts:HTANBiospecimenID"
  const ParentBiospecimenIdField: string := "bts:HTANParentBiospecimenID"
  /** The assay list the constructor checks. */
  const AssayList: string := "ScRNA-seqLevel1"

  // ---------------------------------------------------------------------
  // Schema index

  /** Position `k` holds the last occurrence of `x` in `xs`. */
  predicate LastAt(xs: seq<string>, k: int, x: string) {
    0 <= k < |xs| && xs[k] == x && forall m :: k < m < |xs| ==> xs[m] != x
  }

  /** The inner loop of `__load_schema`: each attribute id maps to its
      position, a repeated id to its last position. */
  function PositionIndex(ids: seq<string>): (m: map<string, nat>)
    ensures forall id :: id in m <==> id in ids
    ensures forall id :: id in m ==> LastAt(ids, m[id], id)
  {
    if |ids| == 0 then map[]
    else
      var m := PositionIndex(ids[..|ids| - 1])[ids[|ids| - 1] := |ids| - 1];
      assert forall id :: id in ids <==> id in ids[..|ids| - 1] || id == ids[|ids| - 1] by {
        assert ids == ids[..|ids| - 1] + [ids[|ids| - 1]];
      }
      m
  }

  /** With distinct ids the index inverts the attribute list. */
  lemma PositionIndexInverts(ids: seq<string>, k: nat)
    requires k < |ids|
    requires forall i, j :: 0 <= i < j < |ids| ==> ids[i] != ids[j]
    ensures ids[k] in PositionIndex(ids) && PositionIndex(ids)[ids[k]] == k
  {
    var m := PositionIndex(ids);
    assert ids[k] in ids;
    assert LastAt(ids, m[ids[k]], ids[k]);
  }

  /** The record type names of the schemas. */
  function Names(schemas: seq<SchemaEntry>): set<string> {
    set k | 0 <= k < |schemas| :: schemas[k].dataSchema
  }

  /** `__load_schema`: the index of every schema; a later schema with the
      same name replaces an earlier one. */
  function LoadSchema(schemas: seq<SchemaEntry>): (idx: SchemaIndex)
    ensures idx.Keys == Names(schemas)
  {
    if |schemas| == 0 then map[]
    else
      var n := |schemas| - 1;
      assert Names(schemas) == Names(schemas[..n]) + {schemas[n].dataSchema} by {
        forall name | name in Names(schemas)
          ensures name in Names(schemas[..n]) + {schemas[n].dataSchema}
        {
          var k :| 0 <= k < |schemas| && schemas[k].dataSchema == name;
          if k < n { assert schemas[..n][k].dataSchema == name; }
        }
        forall name | name in Names(schemas[..n])
          ensures name in Names(schemas)
        {
          var k :| 0 <= k < n && schemas[..n][k].dataSchema == name;
          assert schemas[k].dataSchema == name;
        }
      }
      LoadSchema(schemas[..n])[schemas[n].dataSchema := PositionIndex(schemas[n].attributeIds)]
  }

  /** The index of a loaded name is that of the last schema of that name. */
  lemma {:induction false} LoadSchemaLast(schemas: seq<SchemaEntry>, name: string) returns (k: nat)
    requires name in LoadSchema(schemas)
    ensures LastNamed(schemas, k, name)
    ensures LoadSchema(schemas)[name] == PositionIndex(schemas[k].attributeIds)
  {
    var n := |schemas| - 1;
    if schemas[n].dataSchema == name {
      k := n;
    } else {
      k := LoadSchemaLast(schemas[..n], name);
      assert schemas[k] == schemas[..n][k];
    }
  }

  /** Entry `k` is the last schema named `name`. */
  predicate LastNamed(schemas: seq<SchemaEntry>, k: int, name: string) {
    0 <= k < |schemas| && schemas[k].dataSchema == name
    && forall m :: k < m < |schemas| ==> schemas[m].dataSchema != name
  }

  /** `get_index`: the column of `attribute` in list `name`. */
  function GetIndex(idx: SchemaIndex, name: string, attribute: string): (r: Result<nat, ReaderError>)
    ensures r.Success? <==> name in idx && attribute in idx[name]
    ensures name !in idx ==> r == Failure(UnknownList(name))
    ensures name in idx && attribute !in idx[name] ==> r == Failure(UnknownAttribute(name, attribute))
    ensures r.Success? ==> r.value == idx[name][attribute]
  {
    if name !in idx then Failure(UnknownList(name))
    else if attribute !in idx[name] then Failure(UnknownAttribute(name, attribute))
    else Success(idx[name][attribute])
  }

  /** Looking up a loaded index finds the attribute's last column in the
      last schema of that name, and fails exactly when there is none. */
  lemma GetIndexOfLoaded(schemas: seq<SchemaEntry>, name: string, attribute: string)
    ensures var r := GetIndex(LoadSchema(schemas), name, attribute);
            && (r.Success? <==> exists k :: LastNamed(schemas, k, name) && attribute in schemas[k].attributeIds)
            && (r.Success? ==> exists k :: LastNamed(schemas, k, name) && LastAt(schemas[k].attributeIds, r.value, attribute))
  {
    var idx := LoadSchema(schemas);
    if name in idx {
      var k := LoadSchemaLast(schemas, name);
      forall k' | LastNamed(schemas, k', name)
        ensures k' == k
      {
      }
    }
  }

  // ---------------------------------------------------------------------
  // Link check

  /** `atlas[name]["record_list"]`. */
  function RecordList(atlas: Atlas, name: string): (r: Result<seq<Record>, ReaderError>)
    ensures r.Success? <==> name in atlas && atlas[name].recordList.Some?
    ensures name !in atlas ==> r == Failure(MissingList(name))
    ensures name in atlas && atlas[name].recordList.None? ==> r == Failure(MissingRecordList(name))
    ensures r.Success? ==> r.value == atlas[name].recordList.value
  {
    if name !in atlas then Failure(MissingList(name))
    else if atlas[name].recordList.None? then Failure(MissingRecordList(name))
    else Success(atlas[name].recordList.value)
  }

  /** Every record has a value at column `col`. */
  predicate Reaches(records: seq<Record>, col: nat) {
    forall k :: 0 <= k < |records| ==> col < |records[k]|
  }

  /** The values of column `col`, in record order; `IndexError` on the first
      record too short. */
  function Column(records: seq<Record>, col: nat, name: string): (r: Result<seq<Value>, ReaderError>)
    ensures r.Success? <==> Reaches(records, col)
    ensures r.Failure? ==> r.error == RecordTooShort(name, col)
    ensures r.Success? ==> |r.value| == |records|
    ensures r.Success? ==> forall k :: 0 <= k < |records| ==> r.value[k] == records[k][col]
  {
    if |records| == 0 then Success([])
    else if col >= |records[0]| then Failure(RecordTooShort(name, col))
    else
      var rest :- Column(records[1..], col, name);
      Success([records[0][col]] + rest)
  }

  /** `__extract_sample_ids`: the biospecimen ids of one atlas. */
  function ExtractSampleIds(idx: SchemaIndex, atlas: Atlas): (r: Result<seq<Value>, ReaderError>)
    ensures r.Success? <==>
      && GetIndex(idx, BiospecimenList, BiospecimenIdField).Success?
      && RecordList(atlas, BiospecimenList).Success?
      && Reaches(RecordList(atlas, BiospecimenList).value, idx[BiospecimenList][BiospecimenIdField])
    ensures GetIndex(idx, BiospecimenList, BiospecimenIdField).Failure? ==>
              r == Failure(GetIndex(idx, BiospecimenList, BiospecimenIdField).error)
    ensures GetIndex(idx, BiospecimenList, BiospecimenIdField).Success? && RecordList(atlas, BiospecimenList).Failure? ==>
              r == Failure(RecordList(atlas, BiospecimenList).error)
    ensures r.Failure? && GetIndex(idx, BiospecimenList, BiospecimenIdField).Success?
            && RecordList(atlas, BiospecimenList).Success? ==>
              r.error == RecordTooShort(BiospecimenList, idx[BiospecimenList][BiospecimenIdField])
    ensures r.Success? ==>
      var records := atlas[BiospecimenList].recordList.value;
      var col := idx[BiospecimenList][BiospecimenIdField];
      && |r.value| == |records|
      && forall k :: 0 <= k < |records| ==> r.value[k] == records[k][col]
  {
    var col :- GetIndex(idx, BiospecimenList, BiospecimenIdField);
    var records :- RecordList(atlas, BiospecimenList);
    Column(records, col, BiospecimenList)
  }

  const MessageHead: string := "Within "
  const MessageMiddle: string := ", we have bts:HTANParentBiospecimenID:"
  const MessageTail: string := ", but this ID does not exist within the Biospecimen list"

  /** The error message for a parent id missing from the biospecimens. */
  function Message(name: string, v: Value): (m: string)
    ensures |m| == |MessageHead| + |name| + |MessageMiddle| + |Show(v)| + |MessageTail|
  {
    MessageHead + name + MessageMiddle + Show(v) + MessageTail
  }

  /** Recovers the offending id's text from a message about list `name`. */
  function ParseMessage(name: string, m: string): (r: Option<string>)
    ensures r.Some? ==> Message(name, Str(r.value)) == m
  {
    var lead := MessageHead + name + MessageMiddle;
    if |m| >= |lead| + |MessageTail| && m[..|lead|] == lead && m[|m| - |MessageTail|..] == MessageTail then
      var id := m[|lead|..|m| - |MessageTail|];
      assert m == lead + id + MessageTail;
      Some(id)
    else
      None
  }

  /** Messages round-trip: the text of the offending id can be read back. */
  lemma {:induction false} MessageRoundTrip(name: string, v: Value)
    ensures ParseMessage(name, Message(name, v)) == Some(Show(v))
  {
    var lead := MessageHead + name + MessageMiddle;
    var m := Message(name, v);
    assert m == lead + Show(v) + MessageTail;
    assert m[..|lead|] == lead;
    assert m[|m| - |MessageTail|..] == MessageTail;
    assert m[|lead|..|m| - |MessageTail|] == Show(v);
  }

  /** Record `k`'s parent id (column `col`) is not among `ids`. */
  predicate Dangling(records: seq<Record>, col: nat, ids: seq<Value>, k: int) {
    0 <= k < |records| && col < |records[k]| && records[k][col] !in ids
  }

  /** The inner loop of `__check_assay_links`: one message per record whose
      parent id is not a known sample id, in record order. */
  function CheckRecords(name: string, records: seq<Record>, col: nat, ids: seq<Value>)
    : (r: Result<seq<string>, ReaderError>)
    ensures r.Success? <==> Reaches(records, col)
    ensures r.Failure? ==> r.error == RecordTooShort(name, col)
    ensures r.Success? ==> |r.value| <= |records|
    ensures r.Success? ==> forall m :: m in r.value ==>
              exists k :: Dangling(records, col, ids, k) && m == Message(name, records[k][col])
    ensures r.Success? ==> forall k :: Dangling(records, col, ids, k) ==> Message(name, records[k][col]) in r.value
  {
    if |records| == 0 then Success([])
    else if col >= |records[0]| then Failure(RecordTooShort(name, col))
    else
      var rest :- CheckRecords(name, records[1..], col, ids);
      var v := records[0][col];
      var out := if v in ids then rest else [Message(name, v)] + rest;
      forall m | m in out
        ensures exists k :: Dangling(records, col, ids, k) && m == Message(name, records[k][col])
      {
        if m in rest {
          var k :| Dangling(records[1..], col, ids, k) && m == Message(name, records[1..][k][col]);
          assert Dangling(records, col, ids, k + 1);
        } else {
          assert Dangling(records, col, ids, 0);
        }
      }
      forall k | Dangling(records, col, ids, k)
        ensures Message(name, records[k][col]) in out
      {
        if k > 0 {
          assert Dangling(records[1..], col, ids, k - 1);
        }
      }
      Success(out)
  }

  /** No message means no dangling record, and the converse. */
  lemma CheckRecordsEmptyIff(name: string, records: seq<Record>, col: nat, ids: seq<Value>)
    requires Reaches(records, col)
    ensures CheckRecords(name, records, col, ids).value == [] <==>
              forall k :: 0 <= k < |records| ==> records[k][col] in ids
  {
    var out := CheckRecords(name, records, col, ids).value;
    if out == [] {
      forall k | 0 <= k < |records|
        ensures records[k][col] in ids
      {
        assert !Dangling(records, col, ids, k);
      }
    } else {
      assert out[0] in out;
    }
  }

  /** Whether each record's parent id is missing from `ids`. */
  function DanglingFlags(records: seq<Record>, col: nat, ids: seq<Value>): (f: seq<bool>)
    requires Reaches(records, col)
    ensures |f| == |records|
    ensures forall k :: 0 <= k < |records| ==> (f[k] <==> Dangling(records, col, ids, k))
  {
    seq(|records|, k requires 0 <= k < |records| => records[k][col] !in ids)
  }

  predicate Increasing(p: seq<nat>) {
    forall i, j :: 0 <= i < j < |p| ==> p[i] < p[j]
  }

  /** Every listed position has its flag set. */
  predicate Sound(p: seq<nat>, flags: seq<bool>) {
    forall i :: 0 <= i < |p| ==> p[i] < |flags| && flags[p[i]]
  }

  /** Every position whose flag is set is listed. */
  predicate Complete(p: seq<nat>, flags: seq<bool>) {
    forall k :: 0 <= k < |flags| && flags[k] ==> k in p
  }

  /** `p` lists, in increasing order, exactly the positions whose flag is
      set. */
  predicate Enumerates(p: seq<nat>, flags: seq<bool>) {
    Increasing(p) && Sound(p, flags) && Complete(p, flags)
  }

  /** `msgs[i]` is the message for the record at position `p[i]`. */
  predicate MessagesAt(name: string, records: seq<Record>, col: nat, p: seq<nat>, msgs: seq<string>) {
    |p| == |msgs|
    && forall i :: 0 <= i < |p| ==>
         p[i] < |records| && col < |records[p[i]]| && msgs[i] == Message(name, records[p[i]][col])
  }

  /** The messages of a list are those of its dangling records, one each, in
      record order: their number is the number of dangling records. */
  lemma {:induction false} CheckRecordsInOrder(name: string, records: seq<Record>, col: nat, ids: seq<Value>)
    returns (p: seq<nat>)
    requires Reaches(records, col)
    ensures Enumerates(p, DanglingFlags(records, col, ids))
    ensures MessagesAt(name, records, col, p, CheckRecords(name, records, col, ids).value)
  {
    if |records| == 0 {
      return [];
    }
    var flags := DanglingFlags(records, col, ids);
    assert DanglingFlags(records[1..], col, ids) == flags[1..];
    var q := CheckRecordsInOrder(name, records[1..], col, ids);
    p := EnumerateStep(flags, q);
    MessagesStep(name, records, col, ids, q);
  }

  /** The messages of `records[1..]`, listed by `q`, extend to those of
      `records`. */
  lemma MessagesStep(name: string, records: seq<Record>, col: nat, ids: seq<Value>, q: seq<nat>)
    requires |records| > 0 && Reaches(records, col)
    requires MessagesAt(name, records[1..], col, q, CheckRecords(name, records[1..], col, ids).value)
    ensures MessagesAt(name, records, col,
                       if records[0][col] !in ids then [0] + ShiftUp(q) else ShiftUp(q),
                       CheckRecords(name, records, col, ids).value)
  {
    var rest := CheckRecords(name, records[1..], col, ids).value;
    CheckRecordsCons(name, records, col, ids);
    MessagesShift(name, records, col, q, rest);
    if records[0][col] !in ids {
      MessagesPrepend(name, records, col, ShiftUp(q), rest);
    }
  }

  /** One step of `CheckRecords`: the first record's message, if it
      dangles, then those of the rest. */
  lemma CheckRecordsCons(name: string, records: seq<Record>, col: nat, ids: seq<Value>)
    requires |records| > 0 && Reaches(records, col)
    ensures CheckRecords(name, records, col, ids).value
            == if records[0][col] in ids then CheckRecords(name, records[1..], col, ids).value
               else [Message(name, records[0][col])] + CheckRecords(name, records[1..], col, ids).value
  {
  }

  lemma MessagesShift(name: string, records: seq<Record>, col: nat, q: seq<nat>, msgs: seq<string>)
    requires |records| > 0
    requires MessagesAt(name, records[1..], col, q, msgs)
    ensures MessagesAt(name, records, col, ShiftUp(q), msgs)
  {
    var shifted := ShiftUp(q);
    forall i | 0 <= i < |q|
      ensures shifted[i] < |records| && records[shifted[i]] == records[1..][q[i]]
    {
    }
  }

  lemma MessagesPrepend(name: string, records: seq<Record>, col: nat, p: seq<nat>, msgs: seq<string>)
    requires |records| > 0 && col < |records[0]|
    requires MessagesAt(name, records, col, p, msgs)
    ensures MessagesAt(name, records, col, [0] + p, [Message(name, records[0][col])] + msgs)
  {
    var p' := [0] + p;
    var msgs' := [Message(name, records[0][col])] + msgs;
    forall i | 0 <= i < |p'|
      ensures p'[i] < |records| && col < |records[p'[i]]| && msgs'[i] == Message(name, records[p'[i]][col])
    {
      if i > 0 {
        assert p'[i] == p[i - 1] && msgs'[i] == msgs[i - 1];
      }
    }
  }

  lemma ShiftIncreasing(q: seq<nat>, lead: bool)
    requires Increasing(q)
    ensures Increasing(if lead then [0] + ShiftUp(q) else ShiftUp(q))
  {
    var s := ShiftUp(q);
    assert Increasing(s);
    if lead {
      var p := [0] + s;
      forall i, j | 0 <= i < j < |p|
        ensures p[i] < p[j]
      {
        assert p[j] == s[j - 1];
        if i > 0 { assert p[i] == s[i - 1]; }
      }
    }
  }
  lemma ShiftSound(flags: seq<bool>, q: seq<nat>)
    requires |flags| > 0
    requires Sound(q, flags[1..])
    ensures Sound(if flags[0] then [0] + ShiftUp(q) else ShiftUp(q), flags)
  {
    var s := ShiftUp(q);
    forall i | 0 <= i < |q|
      ensures s[i] < |flags| && flags[s[i]]
    {
      assert flags[1..][q[i]];
    }
    if flags[0] {
      var p := [0] + s;
      forall i | 1 <= i < |p|
        ensures p[i] == s[i - 1]
      {
      }
    }
  }
  lemma ShiftComplete(flags: seq<bool>, q: seq<nat>)
    requires |flags| > 0
    requires Complete(q, flags[1..])
    ensures Complete(if flags[0] then [0] + ShiftUp(q) else ShiftUp(q), flags)
  {
    var s := ShiftUp(q);
    forall k | 0 < k < |flags| && flags[k]
      ensures k in s
    {
      assert flags[1..][k - 1];
      var i :| 0 <= i < |q| && q[i] == k - 1;
      assert s[i] == k;
    }
  }
  /** Extends an enumeration of `flags[1..]` to one of `flags`. */
  lemma EnumerateStep(flags: seq<bool>, q: seq<nat>) returns (p: seq<nat>)
    requires |flags| > 0
    requires Enumerates(q, flags[1..])
    ensures p == if flags[0] then [0] + ShiftUp(q) else ShiftUp(q)
    ensures Enumerates(p, flags)
  {
    ShiftIncreasing(q, flags[0]);
    ShiftSound(flags, q);
    ShiftComplete(flags, q);
    p := if flags[0] then [0] + ShiftUp(q) else ShiftUp(q);
  }

  /** Every position one higher. */
  function ShiftUp(q: seq<nat>): (r: seq<nat>)
    ensures |r| == |q|
    ensures forall i :: 0 <= i < |q| ==> r[i] == q[i] + 1
  {
    if |q| == 0 then [] else [q[0] + 1] + ShiftUp(q[1..])
  }

  /** Everything the check of one atlas needs succeeds. */
  predicate AtlasReadable(idx: SchemaIndex, name: string, col: nat, atlas: Atlas) {
    && ExtractSampleIds(idx, atlas).Success?
    && RecordList(atlas, name).Success?
    && Reaches(RecordList(atlas, name).value, col)
  }

  /** The check of one atlas: its sample ids, then its list `name`, then the
      records of that list. */
  function CheckAtlas(idx: SchemaIndex, name: string, col: nat, atlas: Atlas): (r: Result<seq<string>, ReaderError>)
    ensures r.Success? <==> AtlasReadable(idx, name, col, atlas)
    ensures r.Success? ==> r.value == CheckRecords(name, atlas[name].recordList.value, col, ExtractSampleIds(idx, atlas).value).value
  {
    var ids :- ExtractSampleIds(idx, atlas);
    var records :- RecordList(atlas, name);
    CheckRecords(name, records, col, ids)
  }

  /** The outer loop of `__check_assay_links`: the messages of every atlas,
      atlas after atlas; the first unreadable atlas aborts. */
  function CheckAtlases(idx: SchemaIndex, name: string, col: nat, atlases: seq<Atlas>)
    : (r: Result<seq<string>, ReaderError>)
    ensures r.Success? <==> forall a :: 0 <= a < |atlases| ==> AtlasReadable(idx, name, col, atlases[a])
    ensures r.Failure? ==> exists a :: 0 <= a < |atlases| && CheckAtlas(idx, name, col, atlases[a]) == Failure(r.error)
  {
    if |atlases| == 0 then Success([])
    else
      var head := CheckAtlas(idx, name, col, atlases[0]);
      if head.Failure? then
        Failure(head.error)
      else
        var rest := CheckAtlases(idx, name, col, atlases[1..]);
        if rest.Failure? then
          var a :| 0 <= a < |atlases| - 1 && CheckAtlas(idx, name, col, atlases[1..][a]) == Failure(rest.error);
          assert atlases[a + 1] == atlases[1..][a];
          Failure(rest.error)
        else
          assert forall a :: 1 <= a < |atlases| ==> atlases[a] == atlases[1..][a - 1];
          Success(head.value + rest.value)
  }

  /** Each atlas is checked on its own: the messages of two groups of
      atlases are those of the first group followed by those of the
      second. */
  lemma CheckAtlasesConcat(idx: SchemaIndex, name: string, col: nat, xs: seq<Atlas>, ys: seq<Atlas>)
    requires CheckAtlases(idx, name, col, xs).Success?
    ensures CheckAtlases(idx, name, col, xs + ys) ==
              if CheckAtlases(idx, name, col, ys).Success?
              then Success(CheckAtlases(idx, name, col, xs).value + CheckAtlases(idx, name, col, ys).value)
              else CheckAtlases(idx, name, col, ys)
  {
    CheckAtlasesGathers(idx, name, col, xs);
    CheckAtlasesGathers(idx, name, col, ys);
    CheckAtlasesGathers(idx, name, col, xs + ys);
    AtlasChecksConcat(idx, name, col, xs, ys);
    GatherConcat(AtlasChecks(idx, name, col, xs), AtlasChecks(idx, name, col, ys));
  }

  lemma AtlasChecksConcat(idx: SchemaIndex, name: string, col: nat, xs: seq<Atlas>, ys: seq<Atlas>)
    ensures AtlasChecks(idx, name, col, xs + ys) == AtlasChecks(idx, name, col, xs) + AtlasChecks(idx, name, col, ys)
  {
    var r := AtlasChecks(idx, name, col, xs + ys);
    var s := AtlasChecks(idx, name, col, xs) + AtlasChecks(idx, name, col, ys);
    forall a | 0 <= a < |r|
      ensures r[a] == s[a]
    {
      if a < |xs| {
        assert (xs + ys)[a] == xs[a];
      } else {
        assert (xs + ys)[a] == ys[a - |xs|];
      }
    }
  }

  /** The result of the first failing step, or all the steps' lists joined
      in order. */
  function Gather<T, E>(rs: seq<Result<seq<T>, E>>): Result<seq<T>, E> {
    if |rs| == 0 then Success([])
    else if rs[0].Failure? then Failure(rs[0].error)
    else
      match Gather(rs[1..])
      case Failure(e) => Failure(e)
      case Success(v) => Success(rs[0].value + v)
  }

  /** Gathering two runs of steps is gathering the first, then the second. */
  lemma {:induction false} GatherConcat<T, E>(a: seq<Result<seq<T>, E>>, b: seq<Result<seq<T>, E>>)
    requires Gather(a).Success?
    ensures Gather(a + b) == if Gather(b).Success? then Success(Gather(a).value + Gather(b).value) else Gather(b)
  {
    if |a| == 0 {
      assert a + b == b;
      if Gather(b).Success? {
        assert [] + Gather(b).value == Gather(b).value;
      }
    } else {
      assert (a + b)[0] == a[0];
      assert (a + b)[1..] == a[1..] + b;
      GatherConcat(a[1..], b);
      if Gather(b).Success? {
        var h, t, u := a[0].value, Gather(a[1..]).value, Gather(b).value;
        assert h + (t + u) == (h + t) + u;
      }
    }
  }

  /** The check of each atlas, in order. */
  function AtlasChecks(idx: SchemaIndex, name: string, col: nat, atlases: seq<Atlas>)
    : (r: seq<Result<seq<string>, ReaderError>>)
    ensures |r| == |atlases|
    ensures forall a :: 0 <= a < |atlases| ==> r[a] == CheckAtlas(idx, name, col, atlases[a])
  {
    seq(|atlases|, a requires 0 <= a < |atlases| => CheckAtlas(idx, name, col, atlases[a]))
  }

  /** `CheckAtlases` gathers the checks of the atlases one by one. */
  lemma {:induction false} CheckAtlasesGathers(idx: SchemaIndex, name: string, col: nat, atlases: seq<Atlas>)
    ensures CheckAtlases(idx, name, col, atlases) == Gather(AtlasChecks(idx, name, col, atlases))
  {
    if |atlases| > 0 {
      CheckAtlasesGathers(idx, name, col, atlases[1..]);
      assert AtlasChecks(idx, name, col, atlases)[1..] == AtlasChecks(idx, name, col, atlases[1..]);
    }
  }

  /** The links of atlas `a` hold: every record of its list `name` has a
      parent id among the atlas's own biospecimen ids. */
  predicate AtlasLinked(idx: SchemaIndex, name: string, col: nat, atlas: Atlas)
    requires AtlasReadable(idx, name, col, atlas)
  {
    var records := atlas[name].recordList.value;
    forall k :: 0 <= k < |records| ==> records[k][col] in ExtractSampleIds(idx, atlas).value
  }

  /** The check finds no error exactly when every atlas is linked. */
  lemma {:induction false} CheckAtlasesEmptyIff(idx: SchemaIndex, name: string, col: nat, atlases: seq<Atlas>)
    requires CheckAtlases(idx, name, col, atlases).Success?
    ensures CheckAtlases(idx, name, col, atlases).value == [] <==>
              forall a :: 0 <= a < |atlases| ==> AtlasLinked(idx, name, col, atlases[a])
  {
    if |atlases| > 0 {
      var atlas := atlases[0];
      CheckRecordsEmptyIff(name, atlas[name].recordList.value, col, ExtractSampleIds(idx, atlas).value);
      CheckAtlasesEmptyIff(idx, name, col, atlases[1..]);
      assert forall a :: 1 <= a < |atlases| ==> atlases[a] == atlases[1..][a - 1];
    }
  }

  /** `__check_assay_links`: the column of the parent id in list `name` is
      looked up once, before any atlas, then every atlas is checked. */
  function CheckAssayLinks(idx: SchemaIndex, name: string, atlases: seq<Atlas>): (r: Result<seq<string>, ReaderError>)
    ensures GetIndex(idx, name, ParentBiospecimenIdField).Failure? ==>
              r == Failure(GetIndex(idx, name, ParentBiospecimenIdField).error)
    ensures r.Success? <==>
      && GetIndex(idx, name, ParentBiospecimenIdField).Success?
      && forall a :: 0 <= a < |atlases| ==>
           AtlasReadable(idx, name, idx[name][ParentBiospecimenIdField], atlases[a])
  {
    var col :- GetIndex(idx, name, ParentBiospecimenIdField);
    CheckAtlases(idx, name, col, atlases)
  }

  // ---------------------------------------------------------------------
  // The reader

  /** A constructed reader: the document, its schema index and the errors
      the constructor found. */
  datatype Reader = Reader(doc: Document, schemaIndex: SchemaIndex, errorList: seq<string>)

  /** `HtanJsonReader.__init__` on an already-parsed document: the error list
      starts empty, the schemas are indexed and the assay links of
      `ScRNA-seqLevel1` are checked. An exception from the check means no
      reader. */
  function OpenReader(doc: Document): (r: Result<Reader, ReaderError>)
    ensures r.Success? ==> r.value.doc == doc && r.value.schemaIndex == LoadSchema(doc.schemas)
    ensures r.Success? <==> CheckAssayLinks(LoadSchema(doc.schemas), AssayList, doc.atlases).Success?
    ensures r.Success? ==> r.value.errorList == CheckAssayLinks(LoadSchema(doc.schemas), AssayList, doc.atlases).value
  {
    var idx := LoadSchema(doc.schemas);
    var errors :- CheckAssayLinks(idx, AssayList, doc.atlases);
    Success(Reader(doc, idx, errors))
  }

  /** `get_error_list`. */
  function GetErrorList(reader: Reader): seq<string> {
    reader.errorList
  }

  /** `get_num_atlases`. */
  function GetNumAtlases(reader: Reader): nat {
    |reader.doc.atlases|
  }

  /** An opened reader counts the atlases of the document it was given and
      keeps the index of that document's schemas. */
  lemma OpenedReaderState(doc: Document)
    requires OpenReader(doc).Success?
    ensures GetNumAtlases(OpenReader(doc).value) == |doc.atlases|
    ensures OpenReader(doc).value.schemaIndex.Keys == Names(doc.schemas)
  {
  }

  /** A document without atlases opens exactly when its assay schema has the
      parent id attribute, and then has no errors: the biospecimen lookup
      sits inside the atlas loop. */
  lemma NoAtlasesNoErrors(doc: Document)
    requires doc.atlases == []
    ensures OpenReader(doc).Success? <==> GetIndex(LoadSchema(doc.schemas), AssayList, ParentBiospecimenIdField).Success?
    ensures OpenReader(doc).Success? ==> GetErrorList(OpenReader(doc).value) == []
  {
  }

  /** An opened reader reports no error exactly when, in every atlas, every
      assay record's parent biospecimen id is one of that atlas's
      biospecimen ids. */
  lemma ErrorListEmptyIff(doc: Document)
    requires OpenReader(doc).Success?
    ensures var idx := LoadSchema(doc.schemas);
            var col := idx[AssayList][ParentBiospecimenIdField];
            GetErrorList(OpenReader(doc).value) == [] <==>
              forall a :: 0 <= a < |doc.atlases| ==> AtlasLinked(idx, AssayList, col, doc.atlases[a])
  {
    var idx := LoadSchema(doc.schemas);
    CheckAtlasesEmptyIff(idx, AssayList, idx[AssayList][ParentBiospecimenIdField], doc.atlases);
  }

  /** The messages of one atlas appear among those of all atlases. */
  lemma {:induction false} CheckAtlasesCovers(idx: SchemaIndex, name: string, col: nat, atlases: seq<Atlas>, a: nat)
    requires CheckAtlases(idx, name, col, atlases).Success?
    requires a < |atlases|
    ensures forall m :: m in CheckAtlas(idx, name, col, atlases[a]).value ==> m in CheckAtlases(idx, name, col, atlases).value
  {
    if a > 0 {
      CheckAtlasesCovers(idx, name, col, atlases[1..], a - 1);
      assert atlases[1..][a - 1] == atlases[a];
    }
  }

  /** Every message of all atlases comes from one of them. */
  lemma {:induction false} CheckAtlasesSound(idx: SchemaIndex, name: string, col: nat, atlases: seq<Atlas>, m: string)
    returns (a: nat)
    requires CheckAtlases(idx, name, col, atlases).Success?
    requires m in CheckAtlases(idx, name, col, atlases).value
    ensures a < |atlases| && m in CheckAtlas(idx, name, col, atlases[a]).value
  {
    if m in CheckAtlas(idx, name, col, atlases[0]).value {
      a := 0;
    } else {
      var b := CheckAtlasesSound(idx, name, col, atlases[1..], m);
      a := b + 1;
      assert atlases[1..][b] == atlases[a];
    }
  }

  /** Every dangling parent id of every atlas is reported. */
  lemma ErrorsCoverDanglingLinks(doc: Document, a: nat, k: nat)
    requires OpenReader(doc).Success?
    requires a < |doc.atlases|
    ensures var idx := LoadSchema(doc.schemas);
            var col := idx[AssayList][ParentBiospecimenIdField];
            var atlas := doc.atlases[a];
            var records := atlas[AssayList].recordList.value;
            k < |records| && records[k][col] !in ExtractSampleIds(idx, atlas).value ==>
              Message(AssayList, records[k][col]) in GetErrorList(OpenReader(doc).value)
  {
    var idx := LoadSchema(doc.schemas);
    var col := idx[AssayList][ParentBiospecimenIdField];
    CheckAtlasesCovers(idx, AssayList, col, doc.atlases, a);
    var atlas := doc.atlases[a];
    var records := atlas[AssayList].recordList.value;
    var ids := ExtractSampleIds(idx, atlas).value;
    if k < |records| && records[k][col] !in ids {
      assert Dangling(records, col, ids, k);
    }
  }

  /** Every reported error names a parent id that no biospecimen of its
      atlas carries. */
  lemma ErrorsAreDanglingLinks(doc: Document, m: string) returns (a: nat, k: nat)
    requires OpenReader(doc).Success?
    requires m in GetErrorList(OpenReader(doc).value)
    ensures var idx := LoadSchema(doc.schemas);
            var col := idx[AssayList][ParentBiospecimenIdField];
            && a < |doc.atlases|
            && var atlas := doc.atlases[a];
            var records := atlas[AssayList].recordList.value;
            && k < |records|
            && col < |records[k]|
            && records[k][col] !in ExtractSampleIds(idx, atlas).value
            && m == Message(AssayList, records[k][col])
  {
    var idx := LoadSchema(doc.schemas);
    var col := idx[AssayList][ParentBiospecimenIdField];
    a := CheckAtlasesSound(idx, AssayList, col, doc.atlases, m);
    var atlas := doc.atlases[a];
    var records := atlas[AssayList].recordList.value;
    var ids := ExtractSampleIds(idx, atlas).value;
    var j :| Dangling(records, col, ids, j) && m == Message(AssayList, records[j][col]);
    k := j;
  }
}
