/** `hsim/schema_util.py`: resolution of a record type's field template from
    the schema graph, type inference for each field, and synthesis of one
    value per field. The schema graph is the already-loaded map from node id
    to node; the random draws are parameters. */
module SchemaUtil {
  import opened Wrappers
  import PyStr
  import Decimal
  import opened JsonValue

  /** One node of the schema graph. `rangeIncludes` lists the keys of the
      node's allowed values and `requiresDependency` the keys of its fields;
      either may be absent from the node. */
  datatype SchemaNode = SchemaNode(
    id: string,
    displayName: string,
    comment: string,
    rdfsLabel: string,
    rangeIncludes: Option<seq<string>>,
    requiresDependency: Option<seq<string>>)

  type SchemaGraph = map<string, SchemaNode>

  datatype DataType = StringType | NumericType | ListType

  /** A resolved field of a template. */
  datatype SchemaObject = SchemaObject(
    id: string,
    displayName: string,
    comment: string,
    dataType: DataType,
    options: seq<string>)

  /** `KeyError` raised by a dictionary lookup: a node key absent from the
      graph, or a template node without a dependency list. */
  datatype SchemaError = UnknownKey(key: string) | MissingDependencies(key: string)

  const ComponentKey: string := "bts:component"
  const ParticipantIdField: string := "bts:HTANParticipantID"
  const BiospecimenIdField: string := "bts:HTANBiospecimenID"
  const ParentBiospecimenIdField: string := "bts:HTANParentBiospecimenID"
  const ParentIdField: string := "bts:HTANParentID"

  /** The fields whose synthesized value is the record's own id. */
  predicate IsSelfIdField(id: string) {
    id == ParticipantIdField || id == BiospecimenIdField || id == ParentBiospecimenIdField
  }

  /** A field is a list exactly when it has options. */
  predicate WellTyped(o: SchemaObject) {
    o.dataType == ListType <==> |o.options| > 0
  }

  /** The comment, lower-cased, mentions a number. */
  ghost predicate MentionsNumber(comment: string) {
    var lower := PyStr.Lower(comment);
    PyStr.Occurs("number", lower) || PyStr.Occurs("numeric", lower)
  }

  /** `infer_data_type`: LIST when there are options; otherwise NUMERIC when
      the lower-cased comment contains "number" or "numeric", else STRING. */
  function InferDataType(options: seq<string>, comment: string): (t: DataType)
    ensures |options| > 0 ==> t == ListType
    ensures |options| == 0 ==> (t == NumericType <==> MentionsNumber(comment))
    ensures |options| == 0 ==> (t == StringType <==> !MentionsNumber(comment))
  {
    if |options| == 0 then
      var lower := PyStr.Lower(comment);
      if PyStr.Contains(lower, "number") || PyStr.Contains(lower, "numeric") then NumericType
      else StringType
    else
      ListType
  }

  lemma LowerOfUpper(s: string)
    ensures PyStr.Lower(PyStr.Upper(s)) == PyStr.Lower(s)
  {
    var a, b := PyStr.Lower(PyStr.Upper(s)), PyStr.Lower(s);
    forall k | 0 <= k < |s|
      ensures a[k] == b[k]
    {
      assert PyStr.LowerChar(PyStr.UpperChar(s[k])) == PyStr.LowerChar(s[k]);
    }
  }

  /** The inference ignores letter case: upper-casing the comment changes
      nothing. */
  lemma InferIgnoresCase(options: seq<string>, comment: string)
    ensures InferDataType(options, PyStr.Upper(comment)) == InferDataType(options, comment)
  {
    LowerOfUpper(comment);
  }

  /** A word holding a character the text lacks does not occur in it. */
  lemma AbsentCharBlocksWord(w: string, s: string, i: nat)
    requires i < |w|
    requires forall k :: 0 <= k < |s| ==> s[k] != w[i]
    ensures !PyStr.Occurs(w, s)
  {
    forall k | 0 <= k <= |s| - |w|
      ensures !PyStr.OccursAt(w, s, k)
    {
      assert s[k..k + |w|][i] == s[k + i];
    }
  }

  /** A comment opening with `head`, whose lower-case form is `word`, has
      `word` at the start of its lower-case form. */
  lemma LeadingWord(comment: string, head: string, word: string)
    requires |head| == |word| <= |comment|
    requires comment[..|head|] == head
    requires forall k :: 0 <= k < |head| ==> PyStr.LowerChar(head[k]) == word[k]
    ensures PyStr.OccursAt(word, PyStr.Lower(comment), 0)
  {
    var lower := PyStr.Lower(comment);
    forall k | 0 <= k < |word|
      ensures lower[k] == word[k]
    {
      assert comment[k] == head[k];
    }
    assert lower[..|word|] == word;
  }

  /** The unit test's three comments. Each comment is a parameter pinned by
      the precondition, so that the proof works from the contracts of the
      string functions instead of evaluating them. "Number" and "Numeric"
      open their comments. */
  lemma InferNumberExample(comment: string)
    requires comment == "Number indicating..."
    ensures InferDataType([], comment) == NumericType
  {
    LeadingWord(comment, "Number", "number");
  }

  lemma InferNumericExample(comment: string)
    requires comment == "Numeric indicator of..."
    ensures InferDataType([], comment) == NumericType
  {
    LeadingWord(comment, "Numeric", "numeric");
  }

  /** "Age of patient" has no `u`, which both words need. */
  lemma InferStringExample(comment: string)
    requires comment == "Age of patient"
    ensures InferDataType([], comment) == StringType
  {
    var lower := PyStr.Lower(comment);
    forall k | 0 <= k < |lower|
      ensures lower[k] != 'u'
    {
      assert comment[k] != 'u' && comment[k] != 'U';
    }
    AbsentCharBlocksWord("number", lower, 1);
    AbsentCharBlocksWord("numeric", lower, 1);
  }

  /** The option keys of a node; none when it has no `rangeIncludes`. */
  function OptionRefs(n: SchemaNode): seq<string> {
    if n.rangeIncludes.Some? then n.rangeIncludes.value else []
  }

  /** `k` is the first key of `refs` missing from the graph. */
  predicate FirstMissing(g: SchemaGraph, refs: seq<string>, k: int) {
    && 0 <= k < |refs|
    && refs[k] !in g
    && forall m :: 0 <= m < k ==> refs[m] in g
  }

  /** The option loop of `extract_object_details`: each referenced node's
      display name (not stripped), in reference order; `KeyError` on the
      first reference absent from the graph. */
  function ResolveDisplayNames(g: SchemaGraph, refs: seq<string>): (r: Result<seq<string>, SchemaError>)
    ensures r.Success? <==> forall k :: 0 <= k < |refs| ==> refs[k] in g
    ensures r.Success? ==> |r.value| == |refs|
    ensures r.Success? ==> forall k :: 0 <= k < |refs| ==> r.value[k] == g[refs[k]].displayName
    ensures r.Failure? ==> exists k :: FirstMissing(g, refs, k) && r.error == UnknownKey(refs[k])
  {
    if |refs| == 0 then
      Success([])
    else if refs[0] !in g then
      assert FirstMissing(g, refs, 0);
      Failure(UnknownKey(refs[0]))
    else
      var rest := ResolveDisplayNames(g, refs[1..]);
      if rest.Failure? then
        var k :| FirstMissing(g, refs[1..], k) && rest.error == UnknownKey(refs[1..][k]);
        assert FirstMissing(g, refs, k + 1);
        Failure(rest.error)
      else
        Success([g[refs[0]].displayName] + rest.value)
  }

  /** `extract_object_details`: the node's id, its stripped display name and
      comment, its options and the type inferred from them. */
  function ExtractObjectDetails(g: SchemaGraph, key: string): (r: Result<SchemaObject, SchemaError>)
    ensures r.Success? <==> key in g && forall k :: 0 <= k < |OptionRefs(g[key])| ==> OptionRefs(g[key])[k] in g
    ensures key !in g ==> r == Failure(UnknownKey(key))
    ensures r.Success? ==> WellTyped(r.value)
    ensures r.Success? ==>
      && r.value.id == g[key].id
      && r.value.displayName == PyStr.Strip(g[key].displayName)
      && r.value.comment == PyStr.Strip(g[key].comment)
      && r.value.dataType == InferDataType(r.value.options, r.value.comment)
    ensures r.Success? ==>
      && |r.value.options| == |OptionRefs(g[key])|
      && forall k :: 0 <= k < |r.value.options| ==> r.value.options[k] == g[OptionRefs(g[key])[k]].displayName
  {
    if key !in g then
      Failure(UnknownKey(key))
    else
      var node := g[key];
      var displayName := PyStr.Strip(node.displayName);
      var comment := PyStr.Strip(node.comment);
      var options :- ResolveDisplayNames(g, OptionRefs(node));
      Success(SchemaObject(node.id, displayName, comment, InferDataType(options, comment), options))
  }

  /** The dependency keys a template keeps: all but the component key. */
  function TemplateKeys(deps: seq<string>): (r: seq<string>)
    ensures |r| <= |deps|
    ensures forall x :: x in r <==> x in deps && x != ComponentKey
  {
    if |deps| == 0 then []
    else if deps[0] == ComponentKey then TemplateKeys(deps[1..])
    else [deps[0]] + TemplateKeys(deps[1..])
  }

  /** One reference: kept unless it is the component key. */
  lemma TemplateKeysSingle(x: string)
    ensures TemplateKeys([x]) == if x == ComponentKey then [] else [x]
  {
    assert [x][1..] == [];
  }

  /** The filter works reference by reference: kept keys stay in declared
      order, each reference keeping its own entry. */
  lemma {:induction false} TemplateKeysConcat(a: seq<string>, b: seq<string>)
    ensures TemplateKeys(a + b) == TemplateKeys(a) + TemplateKeys(b)
  {
    if |a| == 0 {
      assert a + b == b;
    } else {
      assert (a + b)[0] == a[0];
      assert (a + b)[1..] == a[1..] + b;
      TemplateKeysConcat(a[1..], b);
    }
  }

  /** Keys of `keys` all resolve to objects. */
  predicate AllResolve(g: SchemaGraph, keys: seq<string>) {
    forall k :: 0 <= k < |keys| ==> ExtractObjectDetails(g, keys[k]).Success?
  }

  /** The values of `rs` when all are successes; else the first failure. */
  function Collect<T(==), E(==)>(rs: seq<Result<T, E>>): (r: Result<seq<T>, E>)
    ensures r.Success? <==> forall k :: 0 <= k < |rs| ==> rs[k].Success?
    ensures r.Success? ==> |r.value| == |rs| && forall k :: 0 <= k < |rs| ==> rs[k] == Success(r.value[k])
    ensures r.Failure? ==> exists k :: 0 <= k < |rs| && rs[k] == Failure(r.error)
  {
    if |rs| == 0 then
      Success([])
    else if rs[0].Failure? then
      Failure(rs[0].error)
    else
      var rest := Collect(rs[1..]);
      if rest.Failure? then
        var k :| 0 <= k < |rs| - 1 && rs[1..][k] == Failure(rest.error);
        assert rs[k + 1] == rs[1..][k];
        Failure(rest.error)
      else
        assert forall k :: 1 <= k < |rs| ==> rs[k] == rs[1..][k - 1];
        Success([rs[0].value] + rest.value)
  }

  /** The loop of `extract_template`, over the kept keys: one object per
      key, in order, failing on the first that does not resolve. */
  function ResolveFields(g: SchemaGraph, keys: seq<string>): (r: Result<seq<SchemaObject>, SchemaError>)
    ensures r.Success? <==> AllResolve(g, keys)
    ensures r.Success? ==> |r.value| == |keys|
    ensures r.Success? ==> forall k :: 0 <= k < |r.value| ==> ExtractObjectDetails(g, keys[k]) == Success(r.value[k])
  {
    var details := seq(|keys|, k requires 0 <= k < |keys| => ExtractObjectDetails(g, keys[k]));
    assert forall k :: 0 <= k < |keys| ==> details[k] == ExtractObjectDetails(g, keys[k]);
    Collect(details)
  }

  /** `extract_template`: the template of record type `key`. */
  function ExtractTemplate(g: SchemaGraph, key: string): (r: Result<seq<SchemaObject>, SchemaError>)
    ensures key !in g ==> r == Failure(UnknownKey(key))
    ensures key in g && g[key].requiresDependency.None? ==> r == Failure(MissingDependencies(key))
    ensures r.Success? <==>
      && key in g
      && g[key].requiresDependency.Some?
      && AllResolve(g, TemplateKeys(g[key].requiresDependency.value))
    ensures r.Success? ==>
      var keys := TemplateKeys(g[key].requiresDependency.value);
      && |r.value| == |keys|
      && forall k :: 0 <= k < |r.value| ==> ExtractObjectDetails(g, keys[k]) == Success(r.value[k])
    ensures r.Success? ==> forall k :: 0 <= k < |r.value| ==> WellTyped(r.value[k])
  {
    if key !in g then
      Failure(UnknownKey(key))
    else if g[key].requiresDependency.None? then
      Failure(MissingDependencies(key))
    else
      ResolveFields(g, TemplateKeys(g[key].requiresDependency.value))
  }

  /** Every node is stored under its own id. */
  predicate WellKeyed(g: SchemaGraph) {
    forall key :: key in g ==> g[key].id == key
  }

  /** On a graph keyed by node id, the template's field ids are exactly the
      declared dependencies other than the component key, in order. */
  lemma TemplateFollowsDependencies(g: SchemaGraph, key: string)
    requires WellKeyed(g)
    requires ExtractTemplate(g, key).Success?
    ensures var fields := ExtractTemplate(g, key).value;
            var keys := TemplateKeys(g[key].requiresDependency.value);
            |fields| == |keys| && forall k :: 0 <= k < |fields| ==> fields[k].id == keys[k]
  {
    var fields := ExtractTemplate(g, key).value;
    var keys := TemplateKeys(g[key].requiresDependency.value);
    forall k | 0 <= k < |fields|
      ensures fields[k].id == keys[k]
    {
      assert ExtractObjectDetails(g, keys[k]) == Success(fields[k]);
    }
  }

  /** A dependency (other than the component key) that is missing from the
      graph makes the whole template fail. */
  lemma MissingFieldFailsTemplate(g: SchemaGraph, key: string, missing: string)
    requires key in g && g[key].requiresDependency.Some?
    requires missing in g[key].requiresDependency.value && missing != ComponentKey
    requires missing !in g
    ensures ExtractTemplate(g, key).Failure?
  {
    var keys := TemplateKeys(g[key].requiresDependency.value);
    assert missing in keys;
    var k :| 0 <= k < |keys| && keys[k] == missing;
    assert ExtractObjectDetails(g, keys[k]).Failure?;
  }

  // ---------------------------------------------------------------------
  // Value synthesis

  /** The draw `random.randint` would return for this field is in range:
      `[0, 100]` for a number, `[0, 100000]` for a placeholder string and
      `[0, |options| - 1]` for a list. Identity fields draw nothing. */
  predicate DrawInRange(o: SchemaObject, draw: int) {
    match o.dataType
    case NumericType => 0 <= draw <= 100
    case StringType => IsSelfIdField(o.id) || o.id == ParentIdField || 0 <= draw <= 100000
    case ListType => 0 <= draw < |o.options|
  }

  const LoremPrefix: string := "lorem_ipsum_"

  /** `generate_simulated_data` with the random integer supplied as `draw`. */
  function GenerateSimulatedData(o: SchemaObject, htanId: string, parentId: Option<string>, draw: int): (v: Value)
    requires DrawInRange(o, draw)
    ensures o.dataType == NumericType ==> v.Int? && 0 <= v.i <= 100
    ensures o.dataType == StringType && IsSelfIdField(o.id) ==> v == Str(htanId)
    ensures o.dataType == StringType && o.id == ParentIdField ==>
              v == (if parentId.Some? then Str(parentId.value) else Null)
    ensures o.dataType == StringType && !IsSelfIdField(o.id) && o.id != ParentIdField ==>
              && v.Str? && |v.s| > |LoremPrefix|
              && v.s[..|LoremPrefix|] == LoremPrefix
              && Decimal.AllDigits(v.s[|LoremPrefix|..])
    ensures o.dataType == ListType ==> v.Str? && v.s in o.options
  {
    match o.dataType
    case NumericType => Int(draw)
    case StringType =>
      if o.id == ParticipantIdField then Str(htanId)
      else if o.id == BiospecimenIdField then Str(htanId)
      else if o.id == ParentBiospecimenIdField then Str(htanId)
      else if o.id == ParentIdField then (if parentId.Some? then Str(parentId.value) else Null)
      else
        var s := LoremPrefix + Decimal.FromNat(draw);
        assert s[|LoremPrefix|..] == Decimal.FromNat(draw);
        Str(s)
    case ListType => Str(o.options[draw])
  }

  /** One draw per field, each in that field's range. */
  predicate DrawsFit(fields: seq<SchemaObject>, draws: seq<int>) {
    |draws| == |fields| && forall k :: 0 <= k < |fields| ==> DrawInRange(fields[k], draws[k])
  }

  /** The loop of `get_front_end_simulated_values`. */
  function SimulateRow(fields: seq<SchemaObject>, htanId: string, parentId: Option<string>, draws: seq<int>): (r: seq<Value>)
    requires DrawsFit(fields, draws)
    ensures |r| == |fields|
    ensures forall k :: 0 <= k < |fields| ==> r[k] == GenerateSimulatedData(fields[k], htanId, parentId, draws[k])
  {
    if |fields| == 0 then []
    else [GenerateSimulatedData(fields[0], htanId, parentId, draws[0])]
         + SimulateRow(fields[1..], htanId, parentId, draws[1..])
  }

  /** `get_front_end_simulated_values`: one value per template field, in
      template order, `draws[k]` being the draw for field `k`. */
  function GetFrontEndSimulatedValues(g: SchemaGraph, key: string, htanId: string, parentId: Option<string>, draws: seq<int>)
    : (r: Result<seq<Value>, SchemaError>)
    requires ExtractTemplate(g, key).Success? ==> DrawsFit(ExtractTemplate(g, key).value, draws)
    ensures r.Success? <==> ExtractTemplate(g, key).Success?
    ensures r.Failure? ==> r.error == ExtractTemplate(g, key).error
    ensures r.Success? ==>
      var fields := ExtractTemplate(g, key).value;
      && |r.value| == |fields|
      && (forall k :: 0 <= k < |fields| && fields[k].dataType == StringType && IsSelfIdField(fields[k].id) ==>
            r.value[k] == Str(htanId))
      && (forall k :: 0 <= k < |fields| && fields[k].dataType == ListType ==>
            r.value[k].Str? && r.value[k].s in fields[k].options)
      && (forall k :: 0 <= k < |fields| && fields[k].dataType == NumericType ==>
            r.value[k].Int? && 0 <= r.value[k].i <= 100)
  {
    var fields :- ExtractTemplate(g, key);
    Success(SimulateRow(fields, htanId, parentId, draws))
  }

  /** The id, display name and description of one field. */
  datatype FrontEndField = FrontEndField(id: string, displayName: string, description: string)

  function ToFrontEndFields(fields: seq<SchemaObject>): (r: seq<FrontEndField>)
    ensures |r| == |fields|
    ensures forall k :: 0 <= k < |fields| ==>
              r[k] == FrontEndField(fields[k].id, fields[k].displayName, fields[k].comment)
  {
    if |fields| == 0 then [] else [FrontEndField(fields[0].id, fields[0].displayName, fields[0].comment)] + ToFrontEndFields(fields[1..])
  }

  /** `get_front_end_schema`: the template's fields without their types and
      options, in template order. */
  function GetFrontEndSchema(g: SchemaGraph, key: string): (r: Result<seq<FrontEndField>, SchemaError>)
    ensures r.Success? <==> ExtractTemplate(g, key).Success?
    ensures r.Failure? ==> r.error == ExtractTemplate(g, key).error
    ensures r.Success? ==>
      var fields := ExtractTemplate(g, key).value;
      && |r.value| == |fields|
      && forall k :: 0 <= k < |fields| ==>
           r.value[k] == FrontEndField(fields[k].id, fields[k].displayName, fields[k].comment)
  {
    var fields :- ExtractTemplate(g, key);
    Success(ToFrontEndFields(fields))
  }

  /** The front-end schema and a simulated row line up: the value at
      position `k` was synthesized from the field at position `k`. */
  lemma FrontEndAligned(g: SchemaGraph, key: string, htanId: string, parentId: Option<string>, draws: seq<int>, k: nat)
    requires ExtractTemplate(g, key).Success?
    requires DrawsFit(ExtractTemplate(g, key).value, draws)
    requires k < |ExtractTemplate(g, key).value|
    ensures var schema := GetFrontEndSchema(g, key).value;
            var row := GetFrontEndSimulatedValues(g, key, htanId, parentId, draws).value;
            var field := ExtractTemplate(g, key).value[k];
            && |schema| == |row|
            && schema[k].id == field.id
            && row[k] == GenerateSimulatedData(field, htanId, parentId, draws[k])
  {
  }

  /** `get_label`: the node's `rdfs:label`. */
  function GetLabel(g: SchemaGraph, key: string): (r: Result<string, SchemaError>)
    ensures r.Success? <==> key in g
    ensures r.Failure? ==> r.error == UnknownKey(key)
    ensures r.Success? ==> r.value == g[key].rdfsLabel
  {
    if key in g then Success(g[key].rdfsLabel) else Failure(UnknownKey(key))
  }
}
