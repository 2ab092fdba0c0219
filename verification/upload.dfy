/** The `/upload/<bucket>` endpoint: each file part of a multipart request is written
    to the bucket under its file name, below the `local_path` header when one is
    given. The request is taken as one part per form field. */
module Upload {
  import opened Wrappers
  import Py
  import opened Store

  /** A file part: its file name, declared content type and body. */
  datatype Part = Part(filename: string, contentType: Option<string>, body: seq<byte>)

  /** The object name a part is written to. */
  function Target(filename: string, localPath: Option<string>): (t: string)
    ensures |filename| <= |t| && t[|t| - |filename|..] == filename
    ensures t == filename <==> !Py.Truthy(localPath)
    ensures Py.Truthy(localPath) ==>
      |t| == |localPath.value| + 1 + |filename| && t[..|localPath.value| + 1] == localPath.value + "/"
  {
    if Py.Truthy(localPath) then localPath.value + "/" + filename else filename
  }

  /** One part as a step of the request: skipped without a file name, otherwise a
      write of its body and content type, which the store may refuse. */
  function Classify(p: Part, localPath: Option<string>, refused: string -> bool): (s: Step)
    ensures p.filename == "" <==> s == Skip
  {
    if p.filename == "" then Skip
    else
      var t := Target(p.filename, localPath);
      if refused(t) then Fail(Refused(t)) else Do(Put(t, StoredObject(p.body, p.contentType)))
  }

  function Steps(parts: seq<Part>, localPath: Option<string>, refused: string -> bool): (r: seq<Step>)
    ensures |r| == |parts|
  {
    if parts == [] then []
    else [Classify(parts[0], localPath, refused)] + Steps(parts[1..], localPath, refused)
  }

  lemma {:induction false} StepsIndex(parts: seq<Part>, localPath: Option<string>, refused: string -> bool)
    ensures forall i :: 0 <= i < |parts| ==> Steps(parts, localPath, refused)[i] == Classify(parts[i], localPath, refused)
  {
    if parts != [] {
      StepsIndex(parts[1..], localPath, refused);
    }
  }

  /** The endpoint: write the parts in order, stopping at the first refused write. */
  function UploadAll(b: Bucket, parts: seq<Part>, localPath: Option<string>, refused: string -> bool): Outcome {
    Run(b, Steps(parts, localPath, refused))
  }

  /** The endpoint's first step: the first part's write, then the rest of the request. */
  lemma UploadCons(b: Bucket, parts: seq<Part>, localPath: Option<string>, refused: string -> bool)
    requires parts != []
    ensures UploadAll(b, parts, localPath, refused)
            == match Classify(parts[0], localPath, refused)
               case Skip => UploadAll(b, parts[1..], localPath, refused)
               case Do(e) => UploadAll(Apply(b, e), parts[1..], localPath, refused)
               case Fail(f) => Outcome(b, Some(f))
  {
    assert Steps(parts, localPath, refused)
           == [Classify(parts[0], localPath, refused)] + Steps(parts[1..], localPath, refused);
  }

  /** The parts that have a file name. */
  function Named(parts: seq<Part>): seq<Part> {
    if parts == [] then []
    else (if parts[0].filename != "" then [parts[0]] else []) + Named(parts[1..])
  }

  /** Parts without a file name have no effect at all. */
  lemma {:induction false} EmptyFilenamesIgnored(b: Bucket, parts: seq<Part>, localPath: Option<string>, refused: string -> bool)
    ensures UploadAll(b, parts, localPath, refused) == UploadAll(b, Named(parts), localPath, refused)
    decreases |parts|
  {
    if parts != [] {
      var p := parts[0];
      var rest := parts[1..];
      var s := Classify(p, localPath, refused);
      assert Steps(parts, localPath, refused) == [s] + Steps(rest, localPath, refused);
      if p.filename == "" {
        assert Named(parts) == Named(rest);
        EmptyFilenamesIgnored(b, rest, localPath, refused);
      } else {
        assert Named(parts) == [p] + Named(rest);
        assert Steps(Named(parts), localPath, refused) == [s] + Steps(Named(rest), localPath, refused);
        if s.Do? {
          EmptyFilenamesIgnored(Apply(b, s.effect), rest, localPath, refused);
        }
      }
    }
  }

  /** The object names the named parts are written to. */
  function Targets(parts: seq<Part>, localPath: Option<string>): set<string> {
    set p | p in parts && p.filename != "" :: Target(p.filename, localPath)
  }

  lemma TargetsCons(parts: seq<Part>, localPath: Option<string>)
    requires parts != []
    ensures Targets(parts, localPath)
            == (if parts[0].filename == "" then {} else {Target(parts[0].filename, localPath)})
               + Targets(parts[1..], localPath)
  {
    assert forall q :: q in parts <==> q == parts[0] || q in parts[1..];
  }

  /** The first part of a successful upload: the bucket the rest of the request starts
      from, which holds one more name when the part is named. */
  lemma UploadNext(b: Bucket, parts: seq<Part>, localPath: Option<string>, refused: string -> bool)
    returns (next: Bucket)
    requires parts != [] && UploadAll(b, parts, localPath, refused).fault.None?
    ensures UploadAll(b, parts, localPath, refused) == UploadAll(next, parts[1..], localPath, refused)
    ensures parts[0].filename == "" ==> next == b
    ensures parts[0].filename != "" ==>
      next == Apply(b, Put(Target(parts[0].filename, localPath), StoredObject(parts[0].body, parts[0].contentType)))
    ensures next.Keys == b.Keys + (if parts[0].filename == "" then {} else {Target(parts[0].filename, localPath)})
  {
    var s := Classify(parts[0], localPath, refused);
    UploadCons(b, parts, localPath, refused);
    next := if s.Do? then Apply(b, s.effect) else b;
  }

  /** An upload that succeeds adds exactly the targets of its named parts. */
  lemma {:induction false} UploadKeys(b: Bucket, parts: seq<Part>, localPath: Option<string>, refused: string -> bool)
    requires UploadAll(b, parts, localPath, refused).fault.None?
    ensures UploadAll(b, parts, localPath, refused).bucket.Keys == b.Keys + Targets(parts, localPath)
    decreases |parts|
  {
    if parts == [] {
      assert Targets(parts, localPath) == {};
    } else {
      var next := UploadNext(b, parts, localPath, refused);
      TargetsCons(parts, localPath);
      UploadKeys(next, parts[1..], localPath, refused);
    }
  }

  /** A successful upload leaves an object untouched when no named part targets it. */
  lemma {:induction false} UploadFrame(b: Bucket, parts: seq<Part>, localPath: Option<string>, refused: string -> bool, n: string)
    requires UploadAll(b, parts, localPath, refused).fault.None?
    requires forall i :: 0 <= i < |parts| && parts[i].filename != "" ==> Target(parts[i].filename, localPath) != n
    ensures var r := UploadAll(b, parts, localPath, refused).bucket;
      (n in r <==> n in b) && (n in b ==> r[n] == b[n])
    decreases |parts|
  {
    if parts != [] {
      var b' := UploadNext(b, parts, localPath, refused);
      UploadFrame(b', parts[1..], localPath, refused, n);
    }
  }

  /** After a successful upload, the object a named part targets holds that part's
      body and content type, unless a later named part targets the same name. */
  lemma {:induction false} UploadLastPartWins(b: Bucket, parts: seq<Part>, localPath: Option<string>, refused: string -> bool, i: nat)
    requires UploadAll(b, parts, localPath, refused).fault.None?
    requires i < |parts| && parts[i].filename != ""
    requires forall j :: i < j < |parts| && parts[j].filename != "" ==>
               Target(parts[j].filename, localPath) != Target(parts[i].filename, localPath)
    ensures var r := UploadAll(b, parts, localPath, refused).bucket;
      var t := Target(parts[i].filename, localPath);
      t in r && r[t] == StoredObject(parts[i].body, parts[i].contentType)
    decreases |parts|
  {
    var b' := UploadNext(b, parts, localPath, refused);
    if i == 0 {
      var rest := parts[1..];
      var t := Target(parts[0].filename, localPath);
      assert forall j :: 0 <= j < |rest| && rest[j].filename != "" ==> Target(rest[j].filename, localPath) != t by {
        forall j | 0 <= j < |rest| && rest[j].filename != ""
          ensures Target(rest[j].filename, localPath) != t
        {
          assert rest[j] == parts[j + 1];
        }
      }
      UploadFrame(b', rest, localPath, refused, t);
    } else {
      var rest := parts[1..];
      assert forall j :: i - 1 < j < |rest| && rest[j].filename != "" ==>
               Target(rest[j].filename, localPath) != Target(rest[i - 1].filename, localPath) by {
        forall j | i - 1 < j < |rest| && rest[j].filename != ""
          ensures Target(rest[j].filename, localPath) != Target(rest[i - 1].filename, localPath)
        {
          assert rest[j] == parts[j + 1] && rest[i - 1] == parts[i];
        }
      }
      UploadLastPartWins(b', rest, localPath, refused, i - 1);
    }
  }

  /** An upload writes the named parts before the first refused write and keeps
      them when it stops. */
  lemma UploadStopsAtFirstFailure(b: Bucket, parts: seq<Part>, localPath: Option<string>, refused: string -> bool)
    returns (k: nat)
    ensures var r := UploadAll(b, parts, localPath, refused);
      && k <= |parts|
      && (forall i :: 0 <= i < k && parts[i].filename != "" ==> !refused(Target(parts[i].filename, localPath)))
      && (r.fault.None? <==> k == |parts|)
      && (k < |parts| ==>
            (parts[k].filename != "" && r.fault == Some(Refused(Target(parts[k].filename, localPath)))))
      && r.bucket == ApplyAll(b, Effects(Steps(parts, localPath, refused)[..k]))
  {
    var steps := Steps(parts, localPath, refused);
    k := RunStopsAtFirstFailure(b, steps);
    StepsIndex(parts, localPath, refused);
    forall i | 0 <= i < k && parts[i].filename != ""
      ensures !refused(Target(parts[i].filename, localPath))
    {
      assert !steps[i].Fail?;
    }
  }
}
