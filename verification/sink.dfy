/** The `/sink/<bucket>` endpoint: a JSON array of operations applied in order,
    each an upsert of serialized data or a delete, stopping at the first failure. */
module Sink {
  import opened Wrappers
  import opened JsonValue
  import opened Store

  const DefaultContentType := "application/json"

  /** The content type handed to the store for an upsert: the default when the key
      is absent, the library's own default for null, and a failure for anything
      that is not a string. */
  function ContentType(v: Option<Json>): (r: Result<Option<string>, Fault>)
    ensures v.None? ==> r == Success(Some(DefaultContentType))
    ensures v.Some? && v.value.JStr? ==> r == Success(Some(v.value.s))
    ensures v == Some(JNull) ==> r == Success(None)
    ensures r.Failure? <==> v.Some? && !v.value.JStr? && !v.value.JNull?
  {
    match v
    case None => Success(Some(DefaultContentType))
    case Some(JStr(s)) => Success(Some(s))
    case Some(JNull) => Success(None)
    case Some(_) => Failure(BadContentType)
  }

  /** One batch entry, read as the loop body reads it: `filename` and `data` first
      (both required even for a delete), then `_deleted`, whose truthiness chooses
      between delete and upsert. */
  function Decode(entity: Json, serialize: Json -> seq<byte>): (r: Result<Effect, Fault>)
    ensures !entity.JObj? ==> r == Failure(NotAnObject)
    ensures entity.JObj? && Lookup(entity.fields, "filename").None? ==> r == Failure(MissingKey("filename"))
    ensures entity.JObj? && Lookup(entity.fields, "data").None? ==> r.Failure?
    ensures r.Success? <==>
      && entity.JObj?
      && Lookup(entity.fields, "filename").Some? && Lookup(entity.fields, "filename").value.JStr?
      && Lookup(entity.fields, "data").Some?
      && Lookup(entity.fields, "_deleted").Some?
      && (Truthy(Lookup(entity.fields, "_deleted").value) || ContentType(Lookup(entity.fields, "content_type")).Success?)
    ensures r.Success? ==>
      && entity.JObj?
      && Lookup(entity.fields, "filename") == Some(JStr(r.value.name))
      && Lookup(entity.fields, "data").Some?
      && Lookup(entity.fields, "_deleted").Some?
      && (r.value.Delete? <==> Truthy(Lookup(entity.fields, "_deleted").value))
    ensures r.Success? && r.value.Put? ==>
      && r.value.obj.payload == serialize(Lookup(entity.fields, "data").value)
      && ContentType(Lookup(entity.fields, "content_type")) == Success(r.value.obj.contentType)
  {
    if !entity.JObj? then Failure(NotAnObject)
    else
      var fs := entity.fields;
      var filename := Lookup(fs, "filename");
      var data := Lookup(fs, "data");
      var deleted := Lookup(fs, "_deleted");
      if filename.None? then Failure(MissingKey("filename"))
      else if data.None? then Failure(MissingKey("data"))
      else if !filename.value.JStr? then Failure(NameNotText)
      else if deleted.None? then Failure(MissingKey("_deleted"))
      else if Truthy(deleted.value) then Success(Delete(filename.value.s))
      else match ContentType(Lookup(fs, "content_type"))
        case Failure(f) => Failure(f)
        case Success(ct) => Success(Put(filename.value.s, StoredObject(serialize(data.value), ct)))
  }

  /** A well-formed batch entry: a file name, the data, the `_deleted` flag and,
      optionally, a content type. */
  function Entry(name: string, data: Json, deleted: Json, contentType: Option<Json>): Json {
    JObj([("filename", JStr(name)), ("data", data), ("_deleted", deleted)]
         + (if contentType.Some? then [("content_type", contentType.value)] else []))
  }

  lemma LookupEntry(name: string, data: Json, deleted: Json, contentType: Option<Json>)
    ensures var fs := Entry(name, data, deleted, contentType).fields;
      && Lookup(fs, "filename") == Some(JStr(name))
      && Lookup(fs, "data") == Some(data)
      && Lookup(fs, "_deleted") == Some(deleted)
      && Lookup(fs, "content_type") == contentType
  {
    var base := [("filename", JStr(name)), ("data", data), ("_deleted", deleted)];
    var fs := Entry(name, data, deleted, contentType).fields;
    assert fs[..3] == base;
    assert base[..2] == [("filename", JStr(name)), ("data", data)];
    assert base[..2][..1] == [("filename", JStr(name))];
    assert base[..2][..1][..0] == [];
    assert "data" != "filename" && "_deleted" != "filename" && "content_type" != "filename";
    assert "_deleted" != "data" && "content_type" != "data" && "content_type" != "_deleted";
    assert Lookup(base[..2][..1], "filename") == Some(JStr(name));
    assert Lookup(base[..2][..1], "data") == None;
    assert Lookup(base[..2], "filename") == Some(JStr(name));
    assert Lookup(base[..2], "data") == Some(data);
    assert Lookup(base, "filename") == Some(JStr(name));
    assert Lookup(base, "data") == Some(data);
    assert Lookup(base, "_deleted") == Some(deleted);
    assert Lookup(base, "content_type") == None;
    if contentType.Some? {
      assert fs == base + [("content_type", contentType.value)];
    } else {
      assert fs == base;
    }
  }

  /** A well-formed entry decodes to a delete of its name when `_deleted` is truthy,
      and otherwise to a write of its serialised data with its content type
      (`application/json` when none is given); a content type that is neither text
      nor null fails an upsert. */
  lemma DecodeEntry(name: string, data: Json, deleted: Json, contentType: Option<Json>, serialize: Json -> seq<byte>)
    ensures var r := Decode(Entry(name, data, deleted, contentType), serialize);
      && (Truthy(deleted) ==> r == Success(Delete(name)))
      && (!Truthy(deleted) && contentType.None? ==>
            r == Success(Put(name, StoredObject(serialize(data), Some(DefaultContentType)))))
      && (!Truthy(deleted) && contentType.Some? && contentType.value.JStr? ==>
            r == Success(Put(name, StoredObject(serialize(data), Some(contentType.value.s)))))
      && (!Truthy(deleted) && contentType == Some(JNull) ==>
            r == Success(Put(name, StoredObject(serialize(data), None))))
      && (!Truthy(deleted) && contentType.Some? && !contentType.value.JStr? && !contentType.value.JNull? ==>
            r == Failure(BadContentType))
  {
    LookupEntry(name, data, deleted, contentType);
  }

  /** One entry as a step of the request, with the store able to refuse the call. */
  function Classify(entity: Json, serialize: Json -> seq<byte>, refused: string -> bool): Step {
    match Decode(entity, serialize)
    case Failure(f) => Fail(f)
    case Success(e) => if refused(e.name) then Fail(Refused(e.name)) else Do(e)
  }

  function Steps(entities: seq<Json>, serialize: Json -> seq<byte>, refused: string -> bool): (r: seq<Step>)
    ensures |r| == |entities|
    ensures forall i :: 0 <= i < |entities| ==> r[i] == Classify(entities[i], serialize, refused)
  {
    if entities == [] then []
    else [Classify(entities[0], serialize, refused)] + Steps(entities[1..], serialize, refused)
  }

  /** The endpoint: iterate the body and apply each entry in order. */
  function SinkBatch(b: Bucket, body: Json, serialize: Json -> seq<byte>, refused: string -> bool): Outcome {
    match Elements(body)
    case None => Outcome(b, Some(NotIterable))
    case Some(entities) => Run(b, Steps(entities, serialize, refused))
  }

  /** A batch applies the entries before the first failing one, in order, and keeps
      their effects when it stops; an entry fails only by what `Decode` or the store
      reject. Without a failure every entry is applied. */
  lemma SinkStopsAtFirstFailure(b: Bucket, entities: seq<Json>, serialize: Json -> seq<byte>, refused: string -> bool)
    returns (k: nat)
    ensures k <= |entities|
    ensures forall i :: 0 <= i < k ==>
      Decode(entities[i], serialize).Success? && !refused(Decode(entities[i], serialize).value.name)
    ensures SinkBatch(b, JArr(entities), serialize, refused).fault.None? <==> k == |entities|
    ensures k < |entities| ==>
      Decode(entities[k], serialize).Failure? || refused(Decode(entities[k], serialize).value.name)
    ensures SinkBatch(b, JArr(entities), serialize, refused).bucket
            == ApplyAll(b, Effects(Steps(entities, serialize, refused)[..k]))
  {
    var steps := Steps(entities, serialize, refused);
    k := RunStopsAtFirstFailure(b, steps);
    forall i | 0 <= i < k
      ensures Decode(entities[i], serialize).Success? && !refused(Decode(entities[i], serialize).value.name)
    {
      assert !steps[i].Fail?;
    }
  }

  /** Deleting an object that is not there succeeds and changes nothing. */
  lemma DeleteOfMissingObject(b: Bucket, name: string, data: Json, deleted: Json, serialize: Json -> seq<byte>, refused: string -> bool)
    requires Truthy(deleted) && name !in b && !refused(name)
    ensures var entity := JObj([("filename", JStr(name)), ("data", data), ("_deleted", deleted)]);
      SinkBatch(b, JArr([entity]), serialize, refused) == Outcome(b, None)
  {
    var entity := Entry(name, data, deleted, None);
    assert entity == JObj([("filename", JStr(name)), ("data", data), ("_deleted", deleted)]);
    DecodeEntry(name, data, deleted, None, serialize);
    var e := Delete(name);
    assert Steps([entity], serialize, refused) == [Do(e)];
    assert Run(b, [Do(e)]) == Run(Apply(b, e), [Do(e)][1..]);
    assert [Do(e)][1..] == [];
  }

  /** An upsert sets the object to the serialized data with the entry's content type
      (application/json by default) and leaves every other object as it was. */
  lemma UpsertWrites(b: Bucket, name: string, data: Json, deleted: Json, serialize: Json -> seq<byte>, refused: string -> bool)
    requires !Truthy(deleted) && !refused(name)
    ensures var entity := JObj([("filename", JStr(name)), ("data", data), ("_deleted", deleted)]);
      var r := SinkBatch(b, JArr([entity]), serialize, refused);
      && r.fault.None?
      && r.bucket == b[name := StoredObject(serialize(data), Some(DefaultContentType))]
  {
    var entity := Entry(name, data, deleted, None);
    assert entity == JObj([("filename", JStr(name)), ("data", data), ("_deleted", deleted)]);
    DecodeEntry(name, data, deleted, None, serialize);
    var e := Put(name, StoredObject(serialize(data), Some(DefaultContentType)));
    assert Steps([entity], serialize, refused) == [Do(e)];
    assert Run(b, [Do(e)]) == Run(Apply(b, e), [Do(e)][1..]);
    assert [Do(e)][1..] == [];
  }

  /** `data` and `_deleted` are required of every entry, deletes included. */
  lemma RequiredKeys(entity: Json, serialize: Json -> seq<byte>)
    requires entity.JObj?
    requires Lookup(entity.fields, "data").None? || Lookup(entity.fields, "_deleted").None?
    ensures Decode(entity, serialize).Failure?
  {
  }

  /** Sending the same batch twice leaves the bucket as sending it once, and fails
      the same way. */
  lemma SinkReplay(b: Bucket, body: Json, serialize: Json -> seq<byte>, refused: string -> bool)
    ensures var r := SinkBatch(b, body, serialize, refused);
      SinkBatch(r.bucket, body, serialize, refused) == r
  {
    if Elements(body).Some? {
      RunReplay(b, Steps(Elements(body).value, serialize, refused));
    }
  }
}
