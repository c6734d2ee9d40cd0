/** The PDF page cache: loaded documents by URL, rendered page bitmaps and
    a render status per page key. A render runs only from no status or a
    failed one, goes through pending, and ends completed with the bitmap
    stored or failed. Background rendering asks for the start page first and
    then every other page in ascending order; clearing a document drops its
    cached pages. The loading and rendering work is a parameter: what it
    produced. */
module PdfCache {
  import opened Common

  datatype Status = Pending | Completed | Failed

  /** A loaded document and a rendered bitmap, as opaque handles. */
  datatype PdfDoc = PdfDoc(id: nat)

  datatype Bitmap = Bitmap(id: nat)

  /** What the asynchronous work produced: the document when it had to be
      loaded (None: loading threw), and the rendered bitmap (None: rendering
      threw). */
  datatype RenderResult = RenderResult(loaded: Option<PdfDoc>, bitmap: Option<Bitmap>)

  /** `${url}-${pageNumber}-${scale}`, with `scale` already in its text form. */
  function CacheKey(url: string, page: int, scale: string): (k: string)
    ensures StartsWith(k, url)
    ensures |k| > |url| && k[|url|] == '-'
  {
    assert (url + "-" + IntToString(page) + "-" + scale)[..|url|] == url;
    url + "-" + IntToString(page) + "-" + scale
  }

  /** The keys of one URL start with any prefix of that URL, so clearing a
      URL also matches the keys of every longer URL that starts with it. */
  lemma SharedPrefixMatches(url: string, other: string, page: int, scale: string)
    requires StartsWith(other, url)
    ensures StartsWith(CacheKey(other, page, scale), url)
  {
    var k := CacheKey(other, page, scale);
    assert k[..|url|] == k[..|other|][..|url|];
  }

  /** The pages after the start page, in ascending order: 1..n without `start`. */
  function OtherPages(n: int, start: int): seq<int>
    decreases n
  {
    if n <= 0 then [] else OtherPages(n - 1, start) + (if n == start then [] else [n])
  }

  /** The other pages are every page of 1..n but the start page, ascending. */
  lemma {:induction false} OtherPagesAscending(n: int, start: int)
    ensures forall i :: 0 <= i < |OtherPages(n, start)| ==>
              1 <= OtherPages(n, start)[i] <= n && OtherPages(n, start)[i] != start
    ensures forall i, j :: 0 <= i < j < |OtherPages(n, start)| ==>
              OtherPages(n, start)[i] < OtherPages(n, start)[j]
    ensures forall p :: 1 <= p <= n && p != start ==> p in OtherPages(n, start)
    decreases n
  {
    if n > 0 {
      OtherPagesAscending(n - 1, start);
      var prev := OtherPages(n - 1, start);
      var r := OtherPages(n, start);
      assert forall i :: 0 <= i < |prev| ==> r[i] == prev[i];
      assert forall p :: p in prev ==> p in r;
      if n != start {
        assert r[|r| - 1] == n;
      }
    }
  }

  /** The start page, then the other pages up to `n`. */
  function BackgroundPrefix(start: int, n: int): seq<int>
  {
    [start] + OtherPages(n, start)
  }

  /** One more page considered by the loop. */
  lemma BackgroundPrefixStep(start: int, n: int)
    requires n >= 1
    ensures BackgroundPrefix(start, n)
            == BackgroundPrefix(start, n - 1) + (if n == start then [] else [n])
  {
    assert OtherPages(n, start) == OtherPages(n - 1, start) + (if n == start then [] else [n]);
  }

  /** The order `startBackgroundRendering` asks for pages in. */
  function BackgroundOrder(start: int, total: int): (r: seq<int>)
    ensures |r| >= 1 && r[0] == start
    ensures forall p :: 1 <= p <= total ==> p in r
    ensures forall i, j :: 0 <= i < j < |r| ==> r[i] != r[j]
    ensures forall i :: 1 <= i < |r| ==> 1 <= r[i] <= total
  {
    var others := OtherPages(total, start);
    OtherPagesAscending(total, start);
    assert forall i :: 1 <= i < |[start] + others| ==> ([start] + others)[i] == others[i - 1];
    assert forall p :: p in others ==> p in [start] + others;
    BackgroundPrefix(start, total)
  }

  class CacheManager {
    var docCache: map<string, PdfDoc>
    var pageCache: map<string, Bitmap>
    var renderStatus: map<string, Status>

    /** A bitmap is cached exactly for the keys whose render completed. */
    ghost predicate Valid()
      reads this
    {
      forall k :: k in pageCache <==> k in renderStatus && renderStatus[k] == Completed
    }

    constructor ()
      ensures Valid() && docCache == map[] && pageCache == map[] && renderStatus == map[]
    {
      docCache, pageCache, renderStatus := map[], map[], map[];
    }

    /** `getDocument(url)`: the cached document, else the one just loaded,
        which is then cached. */
    method GetDocument(url: string, loaded: PdfDoc) returns (doc: PdfDoc)
      modifies `docCache
      ensures url in old(docCache) ==> doc == old(docCache)[url] && docCache == old(docCache)
      ensures url !in old(docCache) ==> doc == loaded && docCache == old(docCache)[url := loaded]
    {
      if url in docCache {
        return docCache[url];
      }
      docCache := docCache[url := loaded];
      doc := loaded;
    }

    /** `getCachedPage(url, pageNumber, scale)` */
    function GetCachedPage(url: string, page: int, scale: string): (r: Option<Bitmap>)
      reads `pageCache, `renderStatus
      ensures r.Some? <==> CacheKey(url, page, scale) in pageCache
      ensures Valid() ==> (r.Some? <==> var k := CacheKey(url, page, scale);
                                         k in renderStatus && renderStatus[k] == Completed)
    {
      var k := CacheKey(url, page, scale);
      if k in pageCache then Some(pageCache[k]) else None
    }

    /** The synchronous start of `renderToCache`: nothing happens for a
        completed or pending key; otherwise the key becomes pending. */
    method BeginRender(key: string) returns (started: bool)
      requires Valid()
      modifies `renderStatus
      ensures Valid()
      ensures started <==> !(key in old(renderStatus) && old(renderStatus)[key] in {Completed, Pending})
      ensures started ==> renderStatus == old(renderStatus)[key := Pending]
      ensures !started ==> renderStatus == old(renderStatus)
    {
      if key in renderStatus && (renderStatus[key] == Completed || renderStatus[key] == Pending) {
        return false;
      }
      renderStatus := renderStatus[key := Pending];
      started := true;
    }

    /** The rest of `renderToCache`, once the work has produced `result`:
        completed with the bitmap stored when the document was at hand (cached
        or loaded) and the page rendered; failed otherwise. */
    method FinishRender(url: string, key: string, result: RenderResult)
      requires Valid() && key in renderStatus && renderStatus[key] == Pending
      modifies this
      ensures Valid()
      ensures var ok := (url in old(docCache) || result.loaded.Some?) && result.bitmap.Some?;
        (ok ==> pageCache == old(pageCache)[key := result.bitmap.value]
                && renderStatus == old(renderStatus)[key := Completed])
        && (!ok ==> pageCache == old(pageCache) && renderStatus == old(renderStatus)[key := Failed])
      ensures url in old(docCache) || result.loaded.None? ==> docCache == old(docCache)
      ensures url !in old(docCache) && result.loaded.Some? ==> docCache == old(docCache)[url := result.loaded.value]
    {
      if url !in docCache && result.loaded.None? {
        renderStatus := renderStatus[key := Failed];
        return;
      }
      var _ := GetDocument(url, if result.loaded.Some? then result.loaded.value else PdfDoc(0));
      if result.bitmap.None? {
        renderStatus := renderStatus[key := Failed];
        return;
      }
      pageCache := pageCache[key := result.bitmap.value];
      renderStatus := renderStatus[key := Completed];
    }

    /** `renderToCache(url, pageNumber, scale)`, run to its end. A completed
        page is never rendered again. */
    method RenderToCache(url: string, page: int, scale: string, result: RenderResult)
      requires Valid()
      modifies this
      ensures Valid()
      ensures var k := CacheKey(url, page, scale);
        k in renderStatus
        && (k in old(renderStatus) && old(renderStatus)[k] in {Completed, Pending} ==>
              renderStatus == old(renderStatus) && pageCache == old(pageCache) && docCache == old(docCache))
        && (!(k in old(renderStatus) && old(renderStatus)[k] in {Completed, Pending}) ==>
              renderStatus[k] != Pending
              && (renderStatus[k] == Completed <==> (url in old(docCache) || result.loaded.Some?) && result.bitmap.Some?)
              && renderStatus == old(renderStatus)[k := renderStatus[k]]
              && pageCache.Keys <= old(pageCache).Keys + {k})
      ensures old(renderStatus).Keys <= renderStatus.Keys
      ensures forall k :: k in old(renderStatus) && old(renderStatus)[k] == Completed ==>
                k in renderStatus && renderStatus[k] == Completed
    {
      var key := CacheKey(url, page, scale);
      var started := BeginRender(key);
      if started {
        FinishRender(url, key, result);
      }
    }

    /** `startBackgroundRendering(url, startPage, totalPages, scale)`: the
        start page first, then the others one by one; `results` gives what
        each page's work produced. Returns the pages asked for, in order. */
    method StartBackgroundRendering(url: string, startPage: int, totalPages: int, scale: string,
                                    results: int -> RenderResult) returns (order: seq<int>)
      requires Valid()
      modifies this
      ensures Valid()
      ensures order == BackgroundOrder(startPage, totalPages)
      ensures forall p :: p in order ==> CacheKey(url, p, scale) in renderStatus
      ensures old(renderStatus).Keys <= renderStatus.Keys
    {
      RenderToCache(url, startPage, scale, results(startPage));
      order := [startPage];
      var i := 1;
      while i <= totalPages
        invariant 1 <= i && (i == 1 || i <= totalPages + 1)
        invariant Valid()
        invariant order == BackgroundPrefix(startPage, i - 1)
        invariant KeysIn(url, order, scale, renderStatus.Keys)
        invariant old(renderStatus).Keys <= renderStatus.Keys
      {
        if i != startPage {
          ghost var before := renderStatus.Keys;
          RenderToCache(url, i, scale, results(i));
          KeysInGrow(url, order, scale, before, renderStatus.Keys, i);
          order := order + [i];
        }
        BackgroundPrefixStep(startPage, i);
        i := i + 1;
      }
      assert BackgroundPrefix(startPage, totalPages) == BackgroundPrefix(startPage, i - 1);
    }

    /** `clearDoc(url)`: forgets the document and, for every cached page
        whose key starts with `url`, the bitmap and its status. A status
        without a bitmap (pending or failed) stays. */
    method ClearDoc(url: string)
      requires Valid()
      modifies this
      ensures Valid()
      ensures docCache == old(docCache) - {url}
      ensures pageCache == map k | k in old(pageCache) && !StartsWith(k, url) :: old(pageCache)[k]
      ensures renderStatus == map k | k in old(renderStatus) && !(k in old(pageCache) && StartsWith(k, url))
                                   :: old(renderStatus)[k]
      ensures forall k :: k in old(renderStatus) && old(renderStatus)[k] != Completed ==>
                k in renderStatus && renderStatus[k] == old(renderStatus)[k]
    {
      docCache := docCache - {url};
      var keys := pageCache.Keys;
      ghost var seen: set<string> := {};
      while keys != {}
        invariant Valid()
        invariant keys !! seen && keys + seen == old(pageCache).Keys
        invariant pageCache == Drop(old(pageCache), url, seen, old(pageCache).Keys)
        invariant renderStatus == Drop(old(renderStatus), url, seen, old(pageCache).Keys)
        invariant docCache == old(docCache) - {url}
        decreases keys
      {
        var k :| k in keys;
        DropStep(old(pageCache), url, seen, old(pageCache).Keys, k);
        DropStep(old(renderStatus), url, seen, old(pageCache).Keys, k);
        if StartsWith(k, url) {
          pageCache := pageCache - {k};
          renderStatus := renderStatus - {k};
        }
        keys := keys - {k};
        seen := seen + {k};
      }
      DropAll(old(pageCache), url, old(pageCache).Keys);
      DropAll(old(renderStatus), url, old(pageCache).Keys);
    }
  }

  /** Every page of `pages` has its key among `keys`. */
  predicate KeysIn(url: string, pages: seq<int>, scale: string, keys: set<string>)
  {
    forall p :: p in pages ==> CacheKey(url, p, scale) in keys
  }

  /** The keys of the pages asked for stay as more keys arrive. */
  lemma KeysInGrow(url: string, pages: seq<int>, scale: string, before: set<string>, after: set<string>, p: int)
    requires KeysIn(url, pages, scale, before) && before <= after && CacheKey(url, p, scale) in after
    ensures KeysIn(url, pages + [p], scale, after)
  {
  }

  /** `m` without the keys in `seen` that are page keys starting with `url`. */
  ghost function Drop<T>(m: map<string, T>, url: string, seen: set<string>, pages: set<string>): map<string, T>
  {
    map k | k in m && !(k in pages && k in seen && StartsWith(k, url)) :: m[k]
  }

  /** One more key visited by the `clearDoc` loop. */
  lemma DropStep<T>(m: map<string, T>, url: string, seen: set<string>, pages: set<string>, k: string)
    requires k !in seen
    ensures Drop(m, url, seen + {k}, pages)
            == if k in pages && StartsWith(k, url) then Drop(m, url, seen, pages) - {k} else Drop(m, url, seen, pages)
  {
    var a, b := Drop(m, url, seen + {k}, pages), Drop(m, url, seen, pages);
    if k in pages && StartsWith(k, url) {
      assert a.Keys == b.Keys - {k};
    } else {
      assert a.Keys == b.Keys;
    }
  }

  /** Every page key visited: the maps `clearDoc` promises. */
  lemma DropAll<T>(m: map<string, T>, url: string, pages: set<string>)
    ensures Drop(m, url, pages, pages) == map k | k in m && !(k in pages && StartsWith(k, url)) :: m[k]
  {
  }
}
