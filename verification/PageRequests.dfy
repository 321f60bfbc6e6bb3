/** A search request by relevance as the caller makes it (catalog.py, `_search`): the
    context and its digest, the token text, the checks on it, and the page. */
module PageRequests {
  import opened Wrappers
  import opened Search
  import opened Catalog
  import opened PageToken
  import opened Paging
  import SearchExact

  datatype Sort = Relevance | PriceAscending | PriceDescending | Newest

  /** What the digest is taken of, the page size already bounded. */
  datatype Context = Context(
    query: string, attributes: map<string, seq<string>>, minPrice: Option<int>, maxPrice: Option<int>,
    inStock: bool, sort: Sort, pageSize: nat)

  /** The digest writes hexadecimal and tells contexts apart. */
  ghost predicate Digests(digest: Context -> string) {
    && (forall c :: HexDigest(digest(c)))
    && forall c, d :: c != d ==> digest(c) != digest(d)
  }

  datatype Refusal = BadToken | OtherQuery | TooDeep

  datatype Page = Page(items: seq<nat>, next: Option<string>)

  /** Where a request starts: at the front, or where its token says. */
  function Offset(digest: Context -> string, ctx: Context, token: Option<string>): (r: Result<nat, Refusal>)
    ensures r.Ok? && token.Some? ==> Accepted(r.value, ctx.pageSize)
  {
    match token
    case None => Ok(0)
    case Some(text) =>
      match DecodeToken(text)
      case None => Err(BadToken)
      case Some((written, offset)) =>
        if written != digest(ctx) then Err(OtherQuery)
        else if offset + ctx.pageSize > MAX_WINDOW then Err(TooDeep)
        else Ok(offset)
  }

  ghost function Issued(digest: Context -> string, ctx: Context, offset: nat): string
    requires Digests(digest)
  {
    EncodeToken(digest(ctx), offset)
  }

  ghost function PageFrom(digest: Context -> string, ctx: Context, found: seq<nat>, offset: nat): Page
    requires Digests(digest)
  {
    Page(PageAt(found, offset, ctx.pageSize),
         match NextOffset(found, offset, ctx.pageSize)
         case None => None
         case Some(next) => Some(Issued(digest, ctx, next)))
  }

  ghost function Respond(digest: Context -> string, ctx: Context, found: seq<nat>, token: Option<string>)
    : Result<Page, Refusal>
    requires Digests(digest)
  {
    match Offset(digest, ctx, token)
    case Err(e) => Err(e)
    case Ok(offset) => Ok(PageFrom(digest, ctx, found, offset))
  }

  /** `_search` sorted by relevance, for a planned query. */
  method Request(f: Frame, t: Table, q: Query, digest: Context -> string, asked: Context, pageSize: int,
                 token: Option<string>)
    returns (r: Result<Page, Refusal>)
    requires Ready(f, t, q) && Digests(digest) && asked.sort == Relevance
    ensures r == Respond(digest, asked.(pageSize := PageSize(pageSize)), Found(f, t, q), token)
  {
    hide Found, Ready, PageAt, NextOffset, DecodeToken, EncodeToken;
    var size := if pageSize < 1 then 1 else if pageSize > MAX_PAGE_SIZE then MAX_PAGE_SIZE else pageSize;
    var ctx := asked.(pageSize := size);
    var offset := 0;
    if token.Some? {
      var read := DecodeToken(token.value);
      if read.None? { return Err(BadToken); }
      if read.value.0 != digest(ctx) { return Err(OtherQuery); }
      offset := read.value.1;
      if offset + ctx.pageSize > MAX_WINDOW { return Err(TooDeep); }
    }
    var items, next := SearchPage(f, t, q, offset, ctx.pageSize);
    var issued: Option<string> := None;
    if next.Some? {
      assert HexDigest(digest(ctx));
      issued := Some(EncodeToken(digest(ctx), next.value));
    }
    return Ok(Page(items, issued));
  }

  /** A token issued under one context, presented under any: under the same it starts
      where it says unless the page would leave the deepest window; under any other
      query, filter, sort or page size it is refused. */
  lemma IssuedToken(digest: Context -> string, issuer: Context, ctx: Context, offset: nat)
    requires Digests(digest)
    ensures Offset(digest, ctx, Some(Issued(digest, issuer, offset))) ==
            if ctx != issuer then Err(OtherQuery)
            else if Accepted(offset, ctx.pageSize) then Ok(offset) else Err(TooDeep)
  {
    hide DecodeToken, EncodeToken;
    assert HexDigest(digest(issuer));
    TokenRoundTrip(digest(issuer), offset);
  }

  /** Page `k` of a walk that presents each page's token text to get the next. */
  ghost function Walk(digest: Context -> string, ctx: Context, found: seq<nat>, k: nat): Option<Page>
    requires Digests(digest)
  {
    if k == 0 then
      match Respond(digest, ctx, found, None) case Err(_) => None case Ok(page) => Some(page)
    else
      match Walk(digest, ctx, found, k - 1)
      case None => None
      case Some(page) =>
        if page.next.None? then None
        else match Respond(digest, ctx, found, page.next) case Err(_) => None case Ok(after) => Some(after)
  }

  ghost function Shown(digest: Context -> string, ctx: Context, found: seq<nat>, k: nat): seq<nat>
    requires Digests(digest) && Walk(digest, ctx, found, k).Some?
  {
    (if k == 0 then [] else Shown(digest, ctx, found, k - 1)) + Walk(digest, ctx, found, k).value.items
  }

  /** Presenting token texts walks exactly the offsets the pages name. */
  lemma {:induction false} WalkFollows(digest: Context -> string, ctx: Context, found: seq<nat>, k: nat)
    requires Digests(digest)
    ensures Walk(digest, ctx, found, k) ==
            match Follow(found, ctx.pageSize, k)
            case None => None
            case Some(offset) => Some(PageFrom(digest, ctx, found, offset))
    ensures Follow(found, ctx.pageSize, k).Some? ==>
              Shown(digest, ctx, found, k) == PagesUpTo(found, ctx.pageSize, k)
  {
    hide PageAt, NextOffset, DecodeToken, EncodeToken, Offset, Issued, Digests;
    if k == 0 {
      assert Offset(digest, ctx, None) == Ok(0) by { NoToken(digest, ctx); }
    } else {
      WalkFollows(digest, ctx, found, k - 1);
      var before := Follow(found, ctx.pageSize, k - 1);
      if before.Some? && NextOffset(found, before.value, ctx.pageSize).Some? {
        IssuedToken(digest, ctx, ctx, NextOffset(found, before.value, ctx.pageSize).value);
      }
    }
  }

  lemma NoToken(digest: Context -> string, ctx: Context)
    ensures Offset(digest, ctx, None) == Ok(0)
  {
  }

  /** The pages a caller gets by presenting token after token are, one after the other,
      the first of all items the query describes, where its items are honest; and
      exactly the first ones unless the scan budget ran out. */
  lemma WalkListsMatches(f: Frame, t: Table, q: Query, digest: Context -> string, ctx: Context, k: nat)
    requires Ready(f, t, q) && SearchExact.HonestFor(f, t, q) && Digests(digest)
    requires 0 < ctx.pageSize <= MAX_PAGE_SIZE && Walk(digest, ctx, Found(f, t, q), k).Some?
    ensures var all := SearchExact.Matches(f, t, q, t.totalSkus);
            var pages := Shown(digest, ctx, Found(f, t, q), k);
            && pages <= all
            && (|Candidates(f, t, q, |q.pairs|)| <= SCAN_LIMIT ==>
                  pages == Clip(all, Paging.Shown(ctx.pageSize, k)))
  {
    hide *;
    WalkFollows(digest, ctx, Found(f, t, q), k);
    PagesListMatches(f, t, q, ctx.pageSize, k);
  }
}
