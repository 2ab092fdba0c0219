/** The listing endpoint `/datasets/<bucket>/entities`: pagination over the store,
    the per-blob filter, the entity record, and the JSON array framing.

    The store is given as the pages it answers to successive fetches; signing,
    `str(blob.updated)`, `json.dumps` and `strptime` are the `Services` functions. */
module Listing {
  import opened Wrappers
  import Py
  import Since
  import opened Framing

  datatype DateTime = DateTime(year: int, month: int, day: int, hour: int, minute: int, second: int)

  /** Expiry of signed URLs when the caller gives none: 2183-09-08 13:15. */
  const DefaultExpiry := DateTime(2183, 9, 8, 13, 15, 0)

  /** One listed object: the fields the listing asks the store for. */
  datatype Blob = Blob(name: string, generation: int, updated: int)

  /** What one listing call yields: its blobs, the continuation token and the
      store's raw `num_results` count. */
  datatype Page = Page(items: seq<Blob>, token: Option<string>, numResults: nat)

  /** One record of the output array. */
  datatype Entity = Entity(
    id: string,
    fileId: string,
    fileUrl: Option<string>,
    updated: string,
    updatedCopy: string,
    generation: int)

  /** The query parameters, exactly as received (absent or text). */
  datatype Query = Query(
    expire: Option<string>,
    withSubfolders: Option<string>,
    withPrefix: Option<string>,
    since: Option<string>,
    doNotSign: Option<string>)

  /** The arguments of one listing call to the store. */
  datatype Request = Request(prefix: Option<string>, pageToken: Option<string>, maxResults: int)

  /** A response body: the pieces yielded, the listing calls issued, and whether the
      generator ran to its closing `]` (otherwise a store call failed mid-stream). */
  datatype Stream = Stream(chunks: seq<string>, requests: seq<Request>, complete: bool)

  /** The configured page size and the collaborators the listing calls out to. */
  datatype Services = Services(
    limit: int,
    parseSince: string -> Option<int>,
    parseExpire: string -> Option<DateTime>,
    sign: (string, DateTime) -> string,
    show: int -> string,
    dump: Entity -> string)

  /** The per-request settings derived from the query. */
  datatype ListingFilter = ListingFilter(floor: Option<int>, includeSubfolders: bool, signUrls: bool, expiry: DateTime)

  /** Why a blob is skipped, in the order the generator tests it, or that it is emitted. */
  datatype Verdict = TooOld | InSubfolder | FolderObject | Emit

  /** The blobs the listing reports: not older than the floor (equal passes), in the
      root unless subfolders were asked for, and never a folder placeholder. */
  predicate Kept(b: Blob, f: ListingFilter) {
    && (f.floor.None? || f.floor.value <= b.updated)
    && ('/' !in b.name || f.includeSubfolders)
    && !Py.EndsWith(b.name, '/')
  }

  /** The chain of `continue`s in the generator's inner loop. */
  function Screen(b: Blob, f: ListingFilter): (v: Verdict)
    ensures v == Emit <==> Kept(b, f)
    ensures Py.EndsWith(b.name, '/') ==> v != Emit
  {
    if f.floor.Some? && b.updated < f.floor.value then TooOld
    else if '/' in b.name && !f.includeSubfolders then InSubfolder
    else if Py.EndsWith(b.name, '/') then FolderObject
    else Emit
  }

  /** The expiry used for signing: the default unless `expire` is non-empty, in which
      case it must parse (otherwise the generator raises before its first piece). */
  function ExpiryOf(expire: Option<string>, parse: string -> Option<DateTime>): (r: Option<DateTime>)
    ensures !Py.Truthy(expire) ==> r == Some(DefaultExpiry)
    ensures Py.Truthy(expire) ==> r == parse(expire.value)
  {
    if !Py.Truthy(expire) then Some(DefaultExpiry) else parse(expire.value)
  }

  /** The settings of one request: query flags are Python truthiness of their text. */
  function FilterOf(q: Query, floor: Option<int>, expiry: DateTime): ListingFilter {
    ListingFilter(floor, Py.Truthy(q.withSubfolders), !Py.Truthy(q.doNotSign), expiry)
  }

  /** The flags test whether text was given, not what it says: `with_subfolders=false`
      still includes subfolders and `do_not_sign=false` still stops signing, while an
      empty value counts as absent. */
  lemma QueryFlags(q: Query, floor: Option<int>, expiry: DateTime)
    ensures var f := FilterOf(q, floor, expiry);
      && f.floor == floor && f.expiry == expiry
      && (q.withSubfolders == Some("false") ==> f.includeSubfolders)
      && (q.withSubfolders.None? || q.withSubfolders == Some("") ==> !f.includeSubfolders)
      && (q.doNotSign == Some("false") ==> !f.signUrls)
      && (q.doNotSign.None? || q.doNotSign == Some("") ==> f.signUrls)
  {
  }

  /** The record emitted for a blob. */
  function MakeEntity(b: Blob, f: ListingFilter, svc: Services): (e: Entity)
    ensures e.id == b.name && e.fileId == b.name
    ensures e.updated == svc.show(b.updated) && e.updatedCopy == e.updated
    ensures e.generation == b.generation
    ensures e.fileUrl.Some? <==> f.signUrls
    ensures f.signUrls ==> e.fileUrl == Some(svc.sign(b.name, f.expiry))
  {
    var url := if f.signUrls then Some(svc.sign(b.name, f.expiry)) else None;
    var shown := svc.show(b.updated);
    Entity(b.name, b.name, url, shown, shown, b.generation)
  }

  /** Reference: the records for the kept blobs of one page, in order. */
  function EntitiesOf(items: seq<Blob>, f: ListingFilter, svc: Services): (es: seq<Entity>)
    ensures |es| <= |items|
  {
    if items == [] then []
    else (if Kept(items[0], f) then [MakeEntity(items[0], f, svc)] else []) + EntitiesOf(items[1..], f, svc)
  }

  /** A page reports a record exactly when it is built from one of its kept blobs. */
  lemma {:induction false} EntitiesOfMembers(items: seq<Blob>, f: ListingFilter, svc: Services)
    ensures forall e :: e in EntitiesOf(items, f, svc) <==> exists b :: b in items && Kept(b, f) && e == MakeEntity(b, f, svc)
  {
    if items != [] {
      EntitiesOfMembers(items[1..], f, svc);
      assert forall b :: b in items <==> b == items[0] || b in items[1..];
    }
  }

  /** Reference: the records for a run of pages, page by page. */
  function PageEntities(pages: seq<Page>, f: ListingFilter, svc: Services): seq<Entity> {
    if pages == [] then []
    else EntitiesOf(pages[0].items, f, svc) + PageEntities(pages[1..], f, svc)
  }

  /** A run of pages reports exactly the records of its pages. */
  lemma {:induction false} PageEntitiesMembers(pages: seq<Page>, f: ListingFilter, svc: Services)
    ensures forall e :: e in PageEntities(pages, f, svc) <==> exists i :: 0 <= i < |pages| && e in EntitiesOf(pages[i].items, f, svc)
  {
    if pages != [] {
      PageEntitiesMembers(pages[1..], f, svc);
      assert forall i :: 1 <= i < |pages| ==> pages[i] == pages[1..][i - 1];
    }
  }

  /** The serialized records, in order. */
  function Dumps(es: seq<Entity>, dump: Entity -> string): (ds: seq<string>)
    ensures |ds| == |es|
  {
    if es == [] then [] else [dump(es[0])] + Dumps(es[1..], dump)
  }

  lemma {:induction false} DumpsAppend(a: seq<Entity>, b: seq<Entity>, dump: Entity -> string)
    ensures Dumps(a + b, dump) == Dumps(a, dump) + Dumps(b, dump)
  {
    if a == [] {
      assert a + b == b;
    } else {
      assert (a + b)[1..] == a[1..] + b;
      DumpsAppend(a[1..], b, dump);
    }
  }

  /** The inner `for blob in iterator` loop as written: the pieces it yields and the
      value of `first` afterwards. */
  function EmitItems(items: seq<Blob>, f: ListingFilter, svc: Services, first: bool): (r: (seq<string>, bool))
  {
    if items == [] then ([], first)
    else if Screen(items[0], f) != Emit then EmitItems(items[1..], f, svc, first)
    else
      var piece := (if first then [] else [","]) + [svc.dump(MakeEntity(items[0], f, svc))];
      var rest := EmitItems(items[1..], f, svc, false);
      (piece + rest.0, rest.1)
  }

  /** One page yields the framing pieces of exactly its kept records, and `first`
      stays true only if it had none. */
  lemma {:induction false} EmitItemsMatches(items: seq<Blob>, f: ListingFilter, svc: Services, first: bool)
    ensures var es := EntitiesOf(items, f, svc);
      EmitItems(items, f, svc, first) == (Pieces(first, Dumps(es, svc.dump)), first && es == [])
  {
    if items != [] {
      var es := EntitiesOf(items[1..], f, svc);
      var ds := Dumps(es, svc.dump);
      if Kept(items[0], f) {
        var e := MakeEntity(items[0], f, svc);
        var rest := EmitItems(items[1..], f, svc, false);
        EmitItemsMatches(items[1..], f, svc, false);
        assert rest == (Separated(ds), false);
        assert EmitItems(items, f, svc, first) == ((if first then [] else [","]) + [svc.dump(e)] + rest.0, rest.1);
        assert EntitiesOf(items, f, svc) == [e] + es;
        assert Dumps([e] + es, svc.dump) == [svc.dump(e)] + ds;
        assert Interleave([svc.dump(e)] + ds) == [svc.dump(e)] + Separated(ds);
        assert Separated([svc.dump(e)] + ds) == [",", svc.dump(e)] + Separated(ds);
        if first {
          assert [] + [svc.dump(e)] + rest.0 == [svc.dump(e)] + Separated(ds);
        } else {
          assert [","] + [svc.dump(e)] + rest.0 == [",", svc.dump(e)] + Separated(ds);
        }
        assert EmitItems(items, f, svc, first).0 == Pieces(first, Dumps(EntitiesOf(items, f, svc), svc.dump));
      } else {
        EmitItemsMatches(items[1..], f, svc, first);
        assert EntitiesOf(items, f, svc) == es;
      }
    }
  }

  /** The page stop rule: no continuation token, or fewer results than the page size. */
  predicate Stops(p: Page, limit: int) {
    p.token.None? || p.numResults < limit
  }

  /** Some page of the run triggers the stop rule. */
  predicate Finishes(pages: seq<Page>, limit: int) {
    pages != [] && (Stops(pages[0], limit) || Finishes(pages[1..], limit))
  }

  lemma {:induction false} FinishesIff(pages: seq<Page>, limit: int)
    ensures Finishes(pages, limit) <==> exists i :: 0 <= i < |pages| && Stops(pages[i], limit)
  {
    if pages != [] {
      FinishesIff(pages[1..], limit);
      assert forall i :: 1 <= i < |pages| ==> pages[i] == pages[1..][i - 1];
    }
  }

  /** Reference: the pages the generator reads, up to and including the first that
      triggers the stop rule (all of them if none does). */
  function Visited(pages: seq<Page>, limit: int): (v: seq<Page>)
    ensures |v| <= |pages|
  {
    if pages == [] then []
    else if Stops(pages[0], limit) then [pages[0]]
    else [pages[0]] + Visited(pages[1..], limit)
  }

  /** The visited pages are a prefix of the store's answers in which only the last
      may trigger the stop rule, and it does exactly when some page does. */
  lemma {:induction false} VisitedShape(pages: seq<Page>, limit: int)
    ensures var v := Visited(pages, limit);
      && v == pages[..|v|]
      && (forall i :: 0 <= i < |v| - 1 ==> !Stops(v[i], limit))
      && (Finishes(pages, limit) ==> 0 < |v| && Stops(v[|v| - 1], limit))
      && (!Finishes(pages, limit) ==> v == pages)
  {
    if pages != [] && !Stops(pages[0], limit) {
      VisitedShape(pages[1..], limit);
      var w := Visited(pages[1..], limit);
      assert Visited(pages, limit) == [pages[0]] + w;
      assert pages == [pages[0]] + pages[1..];
    }
  }

  /** The outer `while True` loop as written, from the fetch that passes `token`;
      `pages` are the store's answers to this and the following fetches, and a fetch
      past the last of them fails. */
  function Drive(pages: seq<Page>, token: Option<string>, first: bool, f: ListingFilter,
                 prefix: Option<string>, svc: Services): Stream
    decreases |pages|
  {
    var req := Request(prefix, token, svc.limit);
    if pages == [] then Stream([], [req], false)
    else
      var page := EmitItems(pages[0].items, f, svc, first);
      if Stops(pages[0], svc.limit) then Stream(page.0 + ["]"], [req], true)
      else
        var rest := Drive(pages[1..], pages[0].token, page.1, f, prefix, svc);
        Stream(page.0 + rest.chunks, [req] + rest.requests, rest.complete)
  }

  /** The loop emits the records of the visited pages, and only those, and closes the
      array exactly when a page triggers the stop rule. */
  lemma {:induction false} DriveOutput(pages: seq<Page>, token: Option<string>, first: bool,
                                       f: ListingFilter, prefix: Option<string>, svc: Services)
    ensures var s := Drive(pages, token, first, f, prefix, svc);
      && s.complete == Finishes(pages, svc.limit)
      && s.chunks == Pieces(first, Dumps(PageEntities(Visited(pages, svc.limit), f, svc), svc.dump))
                     + (if s.complete then ["]"] else [])
  {
    if pages != [] {
      if Stops(pages[0], svc.limit) {
        DriveOutputStop(pages, token, first, f, prefix, svc);
      } else {
        DriveOutputStep(pages, token, first, f, prefix, svc);
        DriveOutput(pages[1..], pages[0].token, EmitItems(pages[0].items, f, svc, first).1, f, prefix, svc);
        DriveOutputCombine(pages, token, first, f, prefix, svc);
      }
    }
  }

  lemma DriveOutputStop(pages: seq<Page>, token: Option<string>, first: bool,
                        f: ListingFilter, prefix: Option<string>, svc: Services)
    requires pages != [] && Stops(pages[0], svc.limit)
    ensures var s := Drive(pages, token, first, f, prefix, svc);
      && s.complete == Finishes(pages, svc.limit)
      && s.chunks == Pieces(first, Dumps(PageEntities(Visited(pages, svc.limit), f, svc), svc.dump)) + ["]"]
  {
    var p := pages[0];
    var es0 := EntitiesOf(p.items, f, svc);
    EmitItemsMatches(p.items, f, svc, first);
    assert Visited(pages, svc.limit) == [p];
    assert PageEntities([p], f, svc) == es0 + PageEntities([p][1..], f, svc);
    assert PageEntities([p], f, svc) == es0;
  }

  /** One turn of the outer loop: the first page's pieces, then the rest of the loop. */
  lemma DriveOutputStep(pages: seq<Page>, token: Option<string>, first: bool,
                        f: ListingFilter, prefix: Option<string>, svc: Services)
    requires pages != [] && !Stops(pages[0], svc.limit)
    ensures var page := EmitItems(pages[0].items, f, svc, first);
      var rest := Drive(pages[1..], pages[0].token, page.1, f, prefix, svc);
      var s := Drive(pages, token, first, f, prefix, svc);
      && s.chunks == page.0 + rest.chunks
      && s.complete == rest.complete
      && Finishes(pages, svc.limit) == Finishes(pages[1..], svc.limit)
      && Visited(pages, svc.limit) == [pages[0]] + Visited(pages[1..], svc.limit)
  {
  }

  /** The records of the visited pages: the first page's, then the rest's. */
  lemma VisitedDumps(pages: seq<Page>, f: ListingFilter, svc: Services)
    requires pages != [] && !Stops(pages[0], svc.limit)
    ensures Dumps(PageEntities(Visited(pages, svc.limit), f, svc), svc.dump)
            == Dumps(EntitiesOf(pages[0].items, f, svc), svc.dump)
               + Dumps(PageEntities(Visited(pages[1..], svc.limit), f, svc), svc.dump)
  {
    var v := Visited(pages[1..], svc.limit);
    assert Visited(pages, svc.limit) == [pages[0]] + v;
    assert ([pages[0]] + v)[1..] == v;
    DumpsAppend(EntitiesOf(pages[0].items, f, svc), PageEntities(v, f, svc), svc.dump);
  }

  lemma DriveOutputCombine(pages: seq<Page>, token: Option<string>, first: bool,
                           f: ListingFilter, prefix: Option<string>, svc: Services)
    requires pages != [] && !Stops(pages[0], svc.limit)
    requires var page := EmitItems(pages[0].items, f, svc, first);
      var rest := Drive(pages[1..], pages[0].token, page.1, f, prefix, svc);
      && rest.complete == Finishes(pages[1..], svc.limit)
      && rest.chunks == Pieces(page.1, Dumps(PageEntities(Visited(pages[1..], svc.limit), f, svc), svc.dump))
                        + (if rest.complete then ["]"] else [])
    ensures var s := Drive(pages, token, first, f, prefix, svc);
      && s.complete == Finishes(pages, svc.limit)
      && s.chunks == Pieces(first, Dumps(PageEntities(Visited(pages, svc.limit), f, svc), svc.dump))
                     + (if s.complete then ["]"] else [])
  {
    var es0 := EntitiesOf(pages[0].items, f, svc);
    var d0 := Dumps(es0, svc.dump);
    var d1 := Dumps(PageEntities(Visited(pages[1..], svc.limit), f, svc), svc.dump);
    var page := EmitItems(pages[0].items, f, svc, first);
    var rest := Drive(pages[1..], pages[0].token, page.1, f, prefix, svc);
    var tail: seq<string> := if rest.complete then ["]"] else [];
    DriveOutputStep(pages, token, first, f, prefix, svc);
    EmitItemsMatches(pages[0].items, f, svc, first);
    VisitedDumps(pages, f, svc);
    assert page.1 == (first && d0 == []);
    PiecesThen(first, d0, d1, tail);
  }

  /** The first fetch passes the starting token; each later fetch passes exactly the
      token of the page before it, which was present and did not stop the loop. One
      fetch is made per visited page, plus the failing one when no page stops. */
  lemma {:induction false} DriveRequests(pages: seq<Page>, token: Option<string>, first: bool,
                                         f: ListingFilter, prefix: Option<string>, svc: Services)
    ensures var s := Drive(pages, token, first, f, prefix, svc);
      && |s.requests| == |Visited(pages, svc.limit)| + (if Finishes(pages, svc.limit) then 0 else 1)
      && s.requests[0] == Request(prefix, token, svc.limit)
      && forall i :: 1 <= i < |s.requests| ==>
           && s.requests[i] == Request(prefix, pages[i - 1].token, svc.limit)
           && pages[i - 1].token.Some?
           && !Stops(pages[i - 1], svc.limit)
  {
    var limit := svc.limit;
    if pages != [] && !Stops(pages[0], limit) {
      var p := pages[0];
      var page := EmitItems(p.items, f, svc, first);
      var s := Drive(pages, token, first, f, prefix, svc);
      var rest := Drive(pages[1..], p.token, page.1, f, prefix, svc);
      DriveRequests(pages[1..], p.token, page.1, f, prefix, svc);
      assert s.requests == [Request(prefix, token, limit)] + rest.requests;
      forall i | 1 <= i < |s.requests|
        ensures && s.requests[i] == Request(prefix, pages[i - 1].token, limit)
                && pages[i - 1].token.Some?
                && !Stops(pages[i - 1], limit)
      {
        if i > 1 {
          assert s.requests[i] == rest.requests[i - 1];
          assert pages[1..][i - 2] == pages[i - 1];
        }
      }
    }
  }

  /** The generator: resolve the expiry, yield `[`, run the page loop. */
  function Generate(q: Query, floor: Option<int>, svc: Services, pages: seq<Page>): Stream {
    match ExpiryOf(q.expire, svc.parseExpire)
    case None => Stream([], [], false)
    case Some(expiry) =>
      var d := Drive(pages, None, true, FilterOf(q, floor, expiry), q.withPrefix, svc);
      Stream(["["] + d.chunks, d.requests, d.complete)
  }

  /** The records a request reports, for a given expiry. */
  function Emitted(q: Query, floor: Option<int>, svc: Services, pages: seq<Page>, expiry: DateTime): seq<Entity> {
    PageEntities(Visited(pages, svc.limit), FilterOf(q, floor, expiry), svc)
  }

  /** The response body is `[` + the serialized records of the visited pages joined
      by single commas + `]`, with the `]` missing when a fetch failed mid-stream;
      no records give exactly `[]`. An `expire` that does not parse yields nothing. */
  lemma ListingOutput(q: Query, floor: Option<int>, svc: Services, pages: seq<Page>)
    ensures var s := Generate(q, floor, svc, pages);
      match ExpiryOf(q.expire, svc.parseExpire)
      case None => s == Stream([], [], false)
      case Some(expiry) =>
        var ds := Dumps(Emitted(q, floor, svc, pages, expiry), svc.dump);
        && s.complete == Finishes(pages, svc.limit)
        && s.chunks == ["["] + Interleave(ds) + (if s.complete then ["]"] else [])
        && Concat(s.chunks) == "[" + Join(ds) + (if s.complete then "]" else "")
        && (s.complete && ds == [] ==> Concat(s.chunks) == "[]")
  {
    match ExpiryOf(q.expire, svc.parseExpire)
    case None =>
    case Some(expiry) =>
      var f := FilterOf(q, floor, expiry);
      DriveOutput(pages, None, true, f, q.withPrefix, svc);
      var d := Drive(pages, None, true, f, q.withPrefix, svc);
      var ds := Dumps(Emitted(q, floor, svc, pages, expiry), svc.dump);
      FrameText(ds, d.complete);
      assert ["["] + (Interleave(ds) + (if d.complete then ["]"] else []))
          == ["["] + Interleave(ds) + (if d.complete then ["]"] else []);
  }

  /** The listing calls of a request: the first without a token, each later one with
      the token of the previous page, until the first page that stops the loop. */
  lemma ListingRequests(q: Query, floor: Option<int>, svc: Services, pages: seq<Page>)
    requires ExpiryOf(q.expire, svc.parseExpire).Some?
    ensures var s := Generate(q, floor, svc, pages);
      && |s.requests| == |Visited(pages, svc.limit)| + (if s.complete then 0 else 1)
      && s.requests[0] == Request(q.withPrefix, None, svc.limit)
      && forall i :: 1 <= i < |s.requests| ==>
           s.requests[i] == Request(q.withPrefix, pages[i - 1].token, svc.limit) && !Stops(pages[i - 1], svc.limit)
  {
    var expiry := ExpiryOf(q.expire, svc.parseExpire).value;
    var f := FilterOf(q, floor, expiry);
    DriveRequests(pages, None, true, f, q.withPrefix, svc);
    DriveOutput(pages, None, true, f, q.withPrefix, svc);
  }

  /** Two full pages with tokens and then a short one: exactly three listing calls,
      and the array is closed. */
  lemma ThreePages(q: Query, floor: Option<int>, svc: Services, p0: Page, p1: Page, p2: Page, more: seq<Page>)
    requires ExpiryOf(q.expire, svc.parseExpire).Some?
    requires p0.token.Some? && p0.numResults == svc.limit
    requires p1.token.Some? && p1.numResults == svc.limit
    requires p2.numResults < svc.limit
    ensures var s := Generate(q, floor, svc, [p0, p1, p2] + more);
      |s.requests| == 3 && s.complete
  {
    var pages := [p0, p1, p2] + more;
    assert pages[1..] == [p1, p2] + more;
    assert pages[1..][1..] == [p2] + more;
    assert Visited([p2] + more, svc.limit) == [p2];
    assert Visited([p1, p2] + more, svc.limit) == [p1] + [p2];
    assert Visited(pages, svc.limit) == [p0] + [p1, p2];
    assert !Finishes([], svc.limit) && Finishes(pages, svc.limit);
    ListingRequests(q, floor, svc, pages);
    ListingOutput(q, floor, svc, pages);
  }

  /** Every reported record comes from a kept blob of a visited page and carries its
      name twice, its timestamp twice and its generation; it has a URL exactly when
      `do_not_sign` is absent or empty, signed with the default expiry unless
      `expire` is non-empty. */
  lemma EmittedEntity(q: Query, floor: Option<int>, svc: Services, pages: seq<Page>, e: Entity)
    returns (i: nat, b: Blob)
    requires ExpiryOf(q.expire, svc.parseExpire).Some?
    requires e in Emitted(q, floor, svc, pages, ExpiryOf(q.expire, svc.parseExpire).value)
    ensures i < |Visited(pages, svc.limit)| && b in Visited(pages, svc.limit)[i].items
    ensures Kept(b, FilterOf(q, floor, ExpiryOf(q.expire, svc.parseExpire).value))
    ensures b.name == e.id && b.generation == e.generation && e.updated == svc.show(b.updated)
    ensures e.fileId == e.id && e.updatedCopy == e.updated
    ensures e.fileUrl.Some? <==> !Py.Truthy(q.doNotSign)
    ensures !Py.Truthy(q.doNotSign) && !Py.Truthy(q.expire) ==> e.fileUrl == Some(svc.sign(e.id, DefaultExpiry))
  {
    var expiry := ExpiryOf(q.expire, svc.parseExpire).value;
    var f := FilterOf(q, floor, expiry);
    var v := Visited(pages, svc.limit);
    PageEntitiesMembers(v, f, svc);
    i :| 0 <= i < |v| && e in EntitiesOf(v[i].items, f, svc);
    EntitiesOfMembers(v[i].items, f, svc);
    b :| b in v[i].items && Kept(b, f) && e == MakeEntity(b, f, svc);
  }

  /** The first chunk of a listing with a parseable expiry is `[`, and it makes at least
      one listing call. */
  lemma StreamOpens(q: Query, floor: Option<int>, svc: Services, pages: seq<Page>)
    requires ExpiryOf(q.expire, svc.parseExpire).Some?
    ensures var s := Generate(q, floor, svc, pages);
      s.chunks != [] && s.chunks[0] == "[" && s.requests != []
  {
    ListingRequests(q, floor, svc, pages);
  }

  /** The whole endpoint as written: a `since` too short to index fails the request
      before any body exists (the IndexError escapes the `except ValueError`);
      otherwise the listing streams with the code's floor. */
  function GetEntities(q: Query, svc: Services, pages: seq<Page>): (r: Result<Stream, Since.PyError>)
    ensures r.Failure? <==> q.since.Some? && |q.since.value| < 3
    ensures r.Success? && ExpiryOf(q.expire, svc.parseExpire).Some? ==>
      r.value.chunks != [] && r.value.chunks[0] == "[" && r.value.requests != []
  {
    match Since.NormaliseAsWritten(q.since, svc.parseSince)
    case Failure(e) => Failure(e)
    case Success(floor) =>
      if ExpiryOf(q.expire, svc.parseExpire).Some? then
        StreamOpens(q, floor, svc, pages);
        Success(Generate(q, floor, svc, pages))
      else Success(Generate(q, floor, svc, pages))
  }

  /** The floor the endpoint lists with: none without `since`, the parse of `since`
      when it has no offset, and the parse of the digit-short rewrite when it has one. */
  lemma GetEntitiesFloor(q: Query, svc: Services, pages: seq<Page>)
    ensures q.since.None? ==> GetEntities(q, svc, pages) == Success(Generate(q, None, svc, pages))
    ensures q.since.Some? && |q.since.value| >= 3 && q.since.value[|q.since.value| - 3] != ':' ==>
      GetEntities(q, svc, pages) == Success(Generate(q, svc.parseSince(q.since.value), svc, pages))
    ensures q.since.Some? && |q.since.value| >= 7 && q.since.value[|q.since.value| - 3] == ':' ==>
      var s := q.since.value;
      GetEntities(q, svc, pages)
      == Success(Generate(q, svc.parseSince(s[..|s| - 7] + "+" + s[|s| - 5..|s| - 3] + s[|s| - 2..]), svc, pages))
  {
  }

  /** The endpoint as intended: a `since` that cannot be used only drops the filter,
      and the offset rewrite keeps every fractional-second digit. */
  function GetEntitiesIntended(q: Query, svc: Services, pages: seq<Page>): (s: Stream)
    ensures ExpiryOf(q.expire, svc.parseExpire).Some? ==> s.chunks != [] && s.chunks[0] == "[" && s.requests != []
  {
    var floor := Since.Normalise(q.since, svc.parseSince);
    if ExpiryOf(q.expire, svc.parseExpire).Some? then
      StreamOpens(q, floor, svc, pages);
      Generate(q, floor, svc, pages)
    else Generate(q, floor, svc, pages)
  }

  /** The two endpoints agree on every request whose `since` is absent, or indexable
      and without an offset; on `?since=` only the intended one produces a listing. */
  lemma GetEntitiesAgreement(q: Query, svc: Services, pages: seq<Page>)
    ensures q.since.None? || (|q.since.value| >= 3 && q.since.value[|q.since.value| - 3] != ':') ==>
      GetEntities(q, svc, pages) == Success(GetEntitiesIntended(q, svc, pages))
    ensures q.since == Some("") ==>
      GetEntities(q, svc, pages).Failure? && GetEntitiesIntended(q, svc, pages).chunks == Generate(q, svc.parseSince(""), svc, pages).chunks
  {
  }
}
