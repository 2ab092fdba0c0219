/** How the listing generator frames its JSON array: the pieces it yields and the
    text they concatenate to. */
module Framing {

  /** The text a streamed response carries: its pieces in order. */
  function Concat(cs: seq<string>): string {
    if cs == [] then "" else cs[0] + Concat(cs[1..])
  }

  /** `",".join(ds)` */
  function Join(ds: seq<string>): string {
    if ds == [] then ""
    else if |ds| == 1 then ds[0]
    else ds[0] + "," + Join(ds[1..])
  }

  /** The pieces yielded for `ds` once something has been written: a comma before each. */
  function Separated(ds: seq<string>): (r: seq<string>)
    ensures |r| == 2 * |ds|
  {
    if ds == [] then [] else [",", ds[0]] + Separated(ds[1..])
  }

  /** Once something has been written, every element is preceded by its own comma. */
  lemma {:induction false} SeparatedIndex(ds: seq<string>)
    ensures forall i :: 0 <= i < 2 * |ds| ==> Separated(ds)[i] == (if i % 2 == 0 then "," else ds[i / 2])
  {
    if ds != [] {
      SeparatedIndex(ds[1..]);
    }
  }

  /** The pieces yielded for `ds` while nothing has been written yet: commas only
      between two elements, never before the first or after the last. */
  function Interleave(ds: seq<string>): (r: seq<string>)
    ensures |r| == if ds == [] then 0 else 2 * |ds| - 1
  {
    if ds == [] then [] else [ds[0]] + Separated(ds[1..])
  }

  /** Elements sit at the even positions and commas at the odd ones, so a comma is
      never first or last. */
  lemma InterleaveIndex(ds: seq<string>)
    ensures forall i :: 0 <= i < |Interleave(ds)| ==> Interleave(ds)[i] == (if i % 2 == 0 then ds[i / 2] else ",")
  {
    if ds != [] {
      SeparatedIndex(ds[1..]);
    }
  }

  /** The pieces yielded for `ds`, depending on whether anything was written before. */
  function Pieces(first: bool, ds: seq<string>): seq<string> {
    if first then Interleave(ds) else Separated(ds)
  }

  lemma {:induction false} ConcatAppend(a: seq<string>, b: seq<string>)
    ensures Concat(a + b) == Concat(a) + Concat(b)
  {
    if a == [] {
      assert a + b == b;
    } else {
      assert (a + b)[1..] == a[1..] + b;
      ConcatAppend(a[1..], b);
    }
  }

  lemma {:induction false} SeparatedAppend(a: seq<string>, b: seq<string>)
    ensures Separated(a + b) == Separated(a) + Separated(b)
  {
    if a == [] {
      assert a + b == b;
    } else {
      assert (a + b)[1..] == a[1..] + b;
      SeparatedAppend(a[1..], b);
    }
  }

  /** Writing `a` and then `b` yields the same pieces as writing `a + b` at once. */
  lemma PiecesAppend(first: bool, a: seq<string>, b: seq<string>)
    ensures Pieces(first, a) + Pieces(first && a == [], b) == Pieces(first, a + b)
  {
    SeparatedAppend(a, b);
    if first && a != [] {
      assert (a + b)[1..] == a[1..] + b;
      SeparatedAppend(a[1..], b);
    } else if a == [] {
      assert a + b == b;
    }
  }

  /** The pieces of `a` followed by the pieces of `b` and whatever closes the stream. */
  lemma PiecesThen(first: bool, a: seq<string>, b: seq<string>, tail: seq<string>)
    ensures Pieces(first, a) + (Pieces(first && a == [], b) + tail) == Pieces(first, a + b) + tail
  {
    PiecesAppend(first, a, b);
  }

  lemma {:induction false} ConcatSeparated(ds: seq<string>)
    ensures Concat(Separated(ds)) == if ds == [] then "" else "," + Join(ds)
  {
    if ds != [] {
      var rest := Separated(ds[1..]);
      assert Separated(ds) == [","] + ([ds[0]] + rest);
      ConcatSeparated(ds[1..]);
      ConcatAppend([","], [ds[0]] + rest);
      ConcatAppend([ds[0]], rest);
    }
  }

  /** The pieces of a fresh array body concatenate to the comma-joined elements. */
  lemma ConcatInterleave(ds: seq<string>)
    ensures Concat(Interleave(ds)) == Join(ds)
  {
    if ds != [] {
      ConcatAppend([ds[0]], Separated(ds[1..]));
      ConcatSeparated(ds[1..]);
    }
  }

  /** A closed array is `[` + the comma-joined elements + `]`; no elements give `[]`. */
  lemma {:induction false} FrameText(ds: seq<string>, closed: bool)
    ensures Concat(["["] + Interleave(ds) + (if closed then ["]"] else []))
            == "[" + Join(ds) + (if closed then "]" else "")
    ensures closed && ds == [] ==> Concat(["["] + Interleave(ds) + ["]"]) == "[]"
  {
    var tail: seq<string> := if closed then ["]"] else [];
    ConcatAppend(["["] + Interleave(ds), tail);
    ConcatAppend(["["], Interleave(ds));
    ConcatInterleave(ds);
    assert Concat(tail) == (if closed then "]" else "");
  }
}
