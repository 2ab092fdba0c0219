/** The bucket as the write endpoints see it, the effects they have on it, and the
    sequential fold that applies them and stops at the first failure. */
module Store {
  import opened Wrappers

  newtype byte = x: int | 0 <= x < 256

  /** A stored object: its bytes and the content type recorded with it (None: the
      storage library's default). */
  datatype StoredObject = StoredObject(payload: seq<byte>, contentType: Option<string>)

  type Bucket = map<string, StoredObject>

  /** A write-through call on one object. */
  datatype Effect = Put(name: string, obj: StoredObject) | Delete(name: string)

  /** Why a batch stopped. */
  datatype Fault =
    | NotIterable            // the request body cannot be iterated
    | NotAnObject            // a batch entry is not a JSON object
    | MissingKey(key: string) // a required key of an entry is absent
    | NameNotText            // `filename` is not a string, so no blob handle can be made
    | BadContentType         // `content_type` is neither a string nor null
    | Refused(name: string)  // the store rejected the call on this object

  /** What one element of a request does: nothing, one effect, or a failure that ends the request. */
  datatype Step = Skip | Do(effect: Effect) | Fail(fault: Fault)

  /** The bucket after a request and the failure that ended it early, if any. */
  datatype Outcome = Outcome(bucket: Bucket, fault: Option<Fault>)

  /** One effect; deleting a missing object is treated as already done (NotFound is swallowed). */
  function Apply(b: Bucket, e: Effect): (r: Bucket)
    ensures forall n :: n != e.name ==> (n in r <==> n in b) && (n in r ==> r[n] == b[n])
    ensures e.Put? ==> e.name in r && r[e.name] == e.obj
    ensures e.Delete? ==> e.name !in r
    ensures e.Delete? && e.name !in b ==> r == b
  {
    match e
    case Put(n, o) => b[n := o]
    case Delete(n) => if n in b then b - {n} else b
  }

  /** Reference: the effects applied one after another. */
  function ApplyAll(b: Bucket, es: seq<Effect>): Bucket
    decreases |es|
  {
    if es == [] then b else ApplyAll(Apply(b, es[0]), es[1..])
  }

  /** The last effect in `es` on object `n`, if any. */
  function LastEffect(es: seq<Effect>, n: string): (r: Option<Effect>)
    ensures r.Some? ==> r.value in es && r.value.name == n
    ensures r.None? <==> forall i :: 0 <= i < |es| ==> es[i].name != n
  {
    if es == [] then None
    else if es[|es| - 1].name == n then Some(es[|es| - 1])
    else LastEffect(es[..|es| - 1], n)
  }

  lemma LastEffectCons(e: Effect, es: seq<Effect>, n: string)
    ensures LastEffect([e] + es, n)
            == if LastEffect(es, n).Some? then LastEffect(es, n) else if e.name == n then Some(e) else None
    decreases |es|
  {
    if es != [] {
      assert ([e] + es)[..|[e] + es| - 1] == [e] + es[..|es| - 1];
      LastEffectCons(e, es[..|es| - 1], n);
    }
  }

  /** After a run of effects each object is what its last effect made it, and
      objects no effect names are untouched. */
  lemma {:induction false} ApplyAllLastWins(b: Bucket, es: seq<Effect>, n: string)
    ensures var r := ApplyAll(b, es);
      match LastEffect(es, n)
      case None => (n in r <==> n in b) && (n in b ==> r[n] == b[n])
      case Some(e) => (e.Put? ==> n in r && r[n] == e.obj) && (e.Delete? ==> n !in r)
    decreases |es|
  {
    if es != [] {
      assert es == [es[0]] + es[1..];
      LastEffectCons(es[0], es[1..], n);
      ApplyAllLastWins(Apply(b, es[0]), es[1..], n);
    }
  }

  /** Applying the same effects again changes nothing. */
  lemma ApplyAllIdempotent(b: Bucket, es: seq<Effect>)
    ensures ApplyAll(ApplyAll(b, es), es) == ApplyAll(b, es)
  {
    var r1 := ApplyAll(b, es);
    var r2 := ApplyAll(r1, es);
    forall n
      ensures (n in r1 <==> n in r2) && (n in r1 ==> r1[n] == r2[n])
    {
      ApplyAllLastWins(b, es, n);
      ApplyAllLastWins(r1, es, n);
    }
    assert r1.Keys == r2.Keys;
  }

  /** The effects of the steps, in order. */
  function Effects(steps: seq<Step>): seq<Effect> {
    if steps == [] then []
    else (if steps[0].Do? then [steps[0].effect] else []) + Effects(steps[1..])
  }

  /** The request loop as written: apply each step's effect in order and stop at the
      first failure, keeping what was already written (no rollback). */
  function Run(b: Bucket, steps: seq<Step>): Outcome
    decreases |steps|
  {
    if steps == [] then Outcome(b, None)
    else match steps[0]
      case Skip => Run(b, steps[1..])
      case Do(e) => Run(Apply(b, e), steps[1..])
      case Fail(f) => Outcome(b, Some(f))
  }

  /** A run applies exactly the effects of the steps before the first failure, and
      reports that failure; with no failure it applies them all. */
  lemma {:induction false} RunStopsAtFirstFailure(b: Bucket, steps: seq<Step>) returns (k: nat)
    ensures k <= |steps|
    ensures forall i :: 0 <= i < k ==> !steps[i].Fail?
    ensures Run(b, steps).fault.None? <==> k == |steps|
    ensures k < |steps| ==> steps[k].Fail? && Run(b, steps).fault == Some(steps[k].fault)
    ensures Run(b, steps).bucket == ApplyAll(b, Effects(steps[..k]))
    decreases |steps|
  {
    if steps == [] {
      k := 0;
    } else {
      var s := steps[0];
      if s.Fail? {
        k := 0;
        assert steps[..0] == [];
      } else {
        var b' := if s.Do? then Apply(b, s.effect) else b;
        var k' := RunStopsAtFirstFailure(b', steps[1..]);
        k := k' + 1;
        assert steps[..k] == [s] + steps[1..][..k'];
        assert ([s] + steps[1..][..k'])[1..] == steps[1..][..k'];
        if s.Do? {
          assert Effects(steps[..k]) == [s.effect] + Effects(steps[1..][..k']);
        } else {
          assert Effects(steps[..k]) == Effects(steps[1..][..k']);
        }
      }
    }
  }

  /** Running the same steps twice leaves the bucket as running them once: a retried
      request is harmless, whether or not it failed part-way. */
  lemma RunReplay(b: Bucket, steps: seq<Step>)
    ensures Run(Run(b, steps).bucket, steps).bucket == Run(b, steps).bucket
    ensures Run(Run(b, steps).bucket, steps).fault == Run(b, steps).fault
  {
    var k := RunStopsAtFirstFailure(b, steps);
    var r := Run(b, steps).bucket;
    var k2 := RunStopsAtFirstFailure(r, steps);
    assert k2 == k by {
      if k2 < k { assert false; }
      if k < k2 { assert false; }
    }
    ApplyAllIdempotent(b, Effects(steps[..k]));
  }
}
