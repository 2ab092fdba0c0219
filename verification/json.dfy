/** Decoded JSON values as the sink endpoint receives them, with the Python
    behaviour it relies on: truthiness, dict lookup, iteration. Numbers are
    integers; floating point is not modelled. */
module JsonValue {
  import opened Wrappers

  datatype Json =
    | JNull
    | JBool(b: bool)
    | JNum(n: int)
    | JStr(s: string)
    | JArr(items: seq<Json>)
    | JObj(fields: seq<(string, Json)>)

  /** `bool(v)` */
  predicate Truthy(v: Json) {
    match v
    case JNull => false
    case JBool(b) => b
    case JNum(n) => n != 0
    case JStr(s) => s != ""
    case JArr(xs) => xs != []
    case JObj(fs) => fs != []
  }

  /** `d.get(key)` on the dict decoded from `fields`: the last binding of a repeated key wins. */
  function Lookup(fields: seq<(string, Json)>, key: string): (r: Option<Json>)
    ensures r.None? <==> forall i :: 0 <= i < |fields| ==> fields[i].0 != key
    ensures r.Some? ==> exists i :: 0 <= i < |fields| && fields[i] == (key, r.value)
                                   && forall j :: i < j < |fields| ==> fields[j].0 != key
  {
    if fields == [] then None
    else if fields[|fields| - 1].0 == key then Some(fields[|fields| - 1].1)
    else Lookup(fields[..|fields| - 1], key)
  }

  /** The keys of the dict decoded from `fields`, each once, in the order of its first
      occurrence (a repeated key keeps its first position and its last value). */
  function Keys(fields: seq<(string, Json)>): (r: seq<string>)
    ensures |r| <= |fields|
    ensures forall i, j :: 0 <= i < j < |r| ==> r[i] != r[j]
    ensures forall i :: 0 <= i < |fields| ==> fields[i].0 in r
    ensures forall k :: k in r ==> Lookup(fields, k).Some?
  {
    if fields == [] then []
    else
      var init := Keys(fields[..|fields| - 1]);
      var k := fields[|fields| - 1].0;
      assert forall i :: 0 <= i < |fields| - 1 ==> fields[..|fields| - 1][i] == fields[i];
      if k in init then init else init + [k]
  }

  /** Adding one field keeps the keys seen so far, in place. */
  lemma KeysStep(fields: seq<(string, Json)>)
    requires fields != []
    ensures var init := Keys(fields[..|fields| - 1]);
      |init| <= |Keys(fields)| && init == Keys(fields)[..|init|]
  {
  }

  /** Keys are listed by first occurrence: the keys of every prefix of the fields
      are a prefix of the keys of the whole. */
  lemma {:induction false} KeysFirstOccurrence(fields: seq<(string, Json)>, m: nat)
    requires m <= |fields|
    ensures |Keys(fields[..m])| <= |Keys(fields)|
    ensures Keys(fields[..m]) == Keys(fields)[..|Keys(fields[..m])|]
    decreases |fields| - m
  {
    if m == |fields| {
      assert fields[..m] == fields;
    } else {
      var init := fields[..|fields| - 1];
      assert init[..m] == fields[..m];
      KeysFirstOccurrence(init, m);
      KeysStep(fields);
      var a := Keys(fields[..m]);
      var b := Keys(init);
      var c := Keys(fields);
      assert a == b[..|a|] && b == c[..|b|];
      assert c[..|b|][..|a|] == c[..|a|];
    }
  }

  /** What `for x in v` visits, or None where Python raises TypeError. Iterating an
      object visits its distinct keys in first-occurrence order, and iterating a
      string visits its characters; both as strings. */
  function Elements(v: Json): (r: Option<seq<Json>>)
    ensures r.None? <==> v.JNull? || v.JBool? || v.JNum?
    ensures v.JArr? ==> r == Some(v.items)
    ensures v.JObj? ==> r.Some? && |r.value| == |Keys(v.fields)|
                        && forall i :: 0 <= i < |Keys(v.fields)| ==> r.value[i] == JStr(Keys(v.fields)[i])
    ensures v.JStr? ==> r.Some? && |r.value| == |v.s|
                        && forall i :: 0 <= i < |v.s| ==> r.value[i] == JStr([v.s[i]])
    ensures r.Some? ==> (r.value == [] <==> !Truthy(v))
  {
    match v
    case JArr(xs) => Some(xs)
    case JObj(fs) =>
      var ks := Keys(fs);
      assert fs != [] ==> fs[0].0 in ks;
      Some(seq(|ks|, i requires 0 <= i < |ks| => JStr(ks[i])))
    case JStr(s) => Some(seq(|s|, i requires 0 <= i < |s| => JStr([s[i]])))
    case _ => None
  }

  /** `{"a": 1, "b": 2, "a": 3}` is iterated as `"a", "b"`. */
  lemma RepeatedKeyVisitedOnce()
    ensures Elements(JObj([("a", JNum(1)), ("b", JNum(2)), ("a", JNum(3))])) == Some([JStr("a"), JStr("b")])
  {
    var fs := [("a", JNum(1)), ("b", JNum(2)), ("a", JNum(3))];
    assert fs[..2] == [("a", JNum(1)), ("b", JNum(2))];
    assert fs[..2][..1] == [("a", JNum(1))];
    assert fs[..2][..1][..0] == [];
    assert "a" != "b";
    assert Keys(fs[..2][..1]) == ["a"];
    assert Keys(fs[..2]) == ["a", "b"];
    assert Keys(fs) == ["a", "b"];
    var r := Elements(JObj(fs)).value;
    assert |r| == 2 && r[0] == JStr("a") && r[1] == JStr("b");
    assert r == [JStr("a"), JStr("b")];
  }
}
