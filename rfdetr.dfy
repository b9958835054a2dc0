/** The RF-DETR object detection API's `encode_response`: the detections' parallel
    arrays become one record per detection, named through the class table. */
module RfDetrServer {
  import opened Outcomes

  /** The arrays of `sv.Detections` the response reads. */
  datatype Detections = Detections(classId: seq<int>, confidence: seq<real>, xyxy: seq<seq<real>>)

  datatype Detection = Detection(classId: int, className: string, confidence: real, bbox: seq<real>)

  /** One aligned triple of the three arrays. */
  datatype Triple = Triple(classId: int, confidence: real, bbox: seq<real>)

  function Min3(a: nat, b: nat, c: nat): (m: nat)
    ensures m <= a && m <= b && m <= c && (m == a || m == b || m == c)
  {
    if a <= b && a <= c then a else if b <= c then b else c
  }

  /** `zip(class_id, confidence, xyxy)`: as many triples as the shortest array has
      entries, in array order. */
  function Zip3(d: Detections): (r: seq<Triple>)
    ensures |r| == Min3(|d.classId|, |d.confidence|, |d.xyxy|)
    ensures forall k :: 0 <= k < |r| ==>
      k < |d.classId| && k < |d.confidence| && k < |d.xyxy| &&
      r[k] == Triple(d.classId[k], d.confidence[k], d.xyxy[k])
  {
    var n := Min3(|d.classId|, |d.confidence|, |d.xyxy|);
    seq(n, k requires 0 <= k < n => Triple(d.classId[k], d.confidence[k], d.xyxy[k]))
  }

  /** One record: `self.coco_classes[int(class_id)]` raises KeyError for an id the
      table lacks. */
  function ToDetection(classes: map<int, string>, t: Triple): (r: Result<Detection>)
    ensures r.Ok? <==> t.classId in classes
    ensures r.Ok? ==> r.value == Detection(t.classId, classes[t.classId], t.confidence, t.bbox)
    ensures r.Err? ==> r.error == IntKeyError(t.classId)
  {
    if t.classId in classes then Ok(Detection(t.classId, classes[t.classId], t.confidence, t.bbox))
    else Err(IntKeyError(t.classId))
  }

  /** The response: a dictionary whose only key is "detections". */
  datatype Response = Response(entries: map<string, seq<Detection>>)

  /** `encode_response`, with the class table as a parameter. */
  function EncodeResponse(classes: map<int, string>, d: Detections): (r: Result<Response>)
    ensures r.Ok? ==> r.value.entries.Keys == {"detections"}
  {
    var records :- MapResult(t => ToDetection(classes, t), Zip3(d));
    Ok(Response(map["detections" := records]))
  }

  /** Every aligned triple whose id the table knows gives one detection, in order; the
      entries past the shortest array are ignored. */
  lemma EncodeResponseOk(classes: map<int, string>, d: Detections)
    ensures var n := Min3(|d.classId|, |d.confidence|, |d.xyxy|);
      && (EncodeResponse(classes, d).Ok? <==> forall k :: 0 <= k < n ==> d.classId[k] in classes)
      && (EncodeResponse(classes, d).Ok? ==>
            var list := EncodeResponse(classes, d).value.entries["detections"];
            && |list| == n
            && forall k :: 0 <= k < n ==>
                 list[k] == Detection(d.classId[k], classes[d.classId[k]], d.confidence[k], d.xyxy[k]))
  {
    var f := t => ToDetection(classes, t);
    var triples := Zip3(d);
    MapResultOk(f, triples);
  }

  /** An unknown class id among the aligned triples raises KeyError for the first such
      id. */
  lemma EncodeResponseUnknownClass(classes: map<int, string>, d: Detections)
    requires EncodeResponse(classes, d).Err?
    ensures exists k ::
              && 0 <= k < Min3(|d.classId|, |d.confidence|, |d.xyxy|)
              && d.classId[k] !in classes
              && EncodeResponse(classes, d).error == IntKeyError(d.classId[k])
              && (forall j :: 0 <= j < k ==> d.classId[j] in classes)
  {
    var f := t => ToDetection(classes, t);
    var triples := Zip3(d);
    MapResultErr(f, triples);
    var k :| 0 <= k < |triples| && f(triples[k]).Err? && MapResult(f, triples).error == f(triples[k]).error
      && (forall j :: 0 <= j < k ==> f(triples[j]).Ok?);
    assert d.classId[k] !in classes;
  }
}
