/** The record types of backend/src/schemas.py and the validation pydantic
    performs when an `Insight` is built. */
module Schemas {
  import opened Outcomes
  import opened JsonValues
  import Frames

  /** Four required fields, none with a default. The confidence score is
      described as lying between 0 and 1 but nothing enforces it. */
  datatype Insight = Insight(
    title: string,
    description: string,
    confidenceScore: real,
    referenceRows: seq<int>)

  /** Column names in order, and the rows as mappings. */
  datatype DataPreview = DataPreview(columns: seq<string>, rows: seq<Frames.Row>)

  datatype UploadResponse = UploadResponse(preview: DataPreview, fileId: string)

  datatype InsightResponse = InsightResponse(fileId: string, insights: seq<Insight>)

  /** The field names, in declaration order. */
  const InsightFields: seq<string> := ["title", "description", "confidence_score", "reference_rows"]

  predicate IsNumber(v: Json) {
    v.JInt? || v.JFloat?
  }

  function NumberValue(v: Json): real
    requires IsNumber(v)
  {
    if v.JInt? then v.i as real else v.x
  }

  predicate IsIntList(v: Json) {
    v.JArr? && forall k :: 0 <= k < |v.items| ==> v.items[k].JInt?
  }

  /** The integers of a JSON list, if every element is an integer. */
  function IntItems(items: seq<Json>): (r: Option<seq<int>>)
    ensures r.Some? <==> forall k :: 0 <= k < |items| ==> items[k].JInt?
    ensures r.Some? ==> |r.value| == |items|
    ensures r.Some? ==> forall k :: 0 <= k < |items| ==> items[k] == JInt(r.value[k])
  {
    if items == [] then Some([])
    else if !items[0].JInt? then None
    else match IntItems(items[1..])
      case None => None
      case Some(rest) => Some([items[0].i] + rest)
  }

  /** `Insight(title=..., description=..., confidence_score=...,
      reference_rows=...)`: succeeds exactly when each value has its field's
      type; the first ill-typed field names the failure. */
  function MakeInsight(title: Json, description: Json, confidence: Json, rows: Json): (r: Result<Insight>)
    ensures r.Ok? <==> title.JStr? && description.JStr? && IsNumber(confidence) && IsIntList(rows)
    ensures r.Ok? ==> && r.value.title == title.s
                      && r.value.description == description.s
                      && r.value.confidenceScore == NumberValue(confidence)
                      && |r.value.referenceRows| == |rows.items|
                      && forall k :: 0 <= k < |rows.items| ==> rows.items[k] == JInt(r.value.referenceRows[k])
    ensures r.Err? ==> r.error.InvalidEntry? && r.error.field in InsightFields
  {
    if !title.JStr? then Err(InvalidEntry("title"))
    else if !description.JStr? then Err(InvalidEntry("description"))
    else if !IsNumber(confidence) then Err(InvalidEntry("confidence_score"))
    else if !rows.JArr? then Err(InvalidEntry("reference_rows"))
    else match IntItems(rows.items)
      case None => Err(InvalidEntry("reference_rows"))
      case Some(ints) => Ok(Insight(title.s, description.s, NumberValue(confidence), ints))
  }

  /** No range check: a score outside [0, 1] builds an insight all the same. */
  lemma ConfidenceIsUnchecked(title: string, description: string, score: real)
    ensures MakeInsight(JStr(title), JStr(description), JFloat(score), JArr([]))
         == Ok(Insight(title, description, score, []))
  {
  }

  function IntsToJson(rows: seq<int>): (r: seq<Json>)
    ensures |r| == |rows|
    ensures forall k :: 0 <= k < |rows| ==> r[k] == JInt(rows[k])
  {
    seq(|rows|, k requires 0 <= k < |rows| => JInt(rows[k]))
  }

  /** `insight.dict()`, as it is written to the insights file. */
  function ToRecord(x: Insight): (r: Json)
    ensures r.JObj? && forall f :: f in r.fields <==> f in InsightFields
  {
    JObj(map[
      "title" := JStr(x.title),
      "description" := JStr(x.description),
      "confidence_score" := JFloat(x.confidenceScore),
      "reference_rows" := JArr(IntsToJson(x.referenceRows))])
  }

  /** `Insight(**item)`: the item must be a dictionary holding all four
      fields (others are ignored), each valid for its type. */
  function FromRecord(item: Json): (r: Result<Insight>)
    ensures r.Ok? ==> item.JObj? && forall f :: f in InsightFields ==> f in item.fields
    ensures item.JObj? && (forall f :: f in InsightFields ==> f in item.fields) ==>
      r == MakeInsight(item.fields["title"], item.fields["description"],
                       item.fields["confidence_score"], item.fields["reference_rows"])
    ensures r.Err? ==> r.error.InvalidEntry?
  {
    if !item.JObj? then Err(InvalidEntry("record"))
    else if "title" !in item.fields then Err(InvalidEntry("title"))
    else if "description" !in item.fields then Err(InvalidEntry("description"))
    else if "confidence_score" !in item.fields then Err(InvalidEntry("confidence_score"))
    else if "reference_rows" !in item.fields then Err(InvalidEntry("reference_rows"))
    else MakeInsight(item.fields["title"], item.fields["description"],
                     item.fields["confidence_score"], item.fields["reference_rows"])
  }

  /** A stored insight reads back as itself. */
  lemma RecordRoundTrip(x: Insight)
    ensures FromRecord(ToRecord(x)) == Ok(x)
  {
    var rows := IntsToJson(x.referenceRows);
    var r := MakeInsight(JStr(x.title), JStr(x.description), JFloat(x.confidenceScore), JArr(rows));
    assert r.Ok?;
    assert r.value.referenceRows == x.referenceRows;
  }

  /** Fields beyond the four declared ones do not affect validation. */
  lemma ExtraFieldsIgnored(fields: map<string, Json>, extra: map<string, Json>)
    requires forall f :: f in extra ==> f !in InsightFields
    ensures FromRecord(JObj(fields + extra)) == FromRecord(JObj(fields))
  {
  }
}
