/**
 The image-fallback registry of configurable products.

 Each product id maps to an object of image data keyed by image type
 (small image, base image, ...). Registering a product's fallback must not
 overwrite data an earlier registration already loaded: a later base-image
 fallback must leave a loaded small-image entry alone.
 */
module ConfigurableMediaImages {
  import opened Wrappers

  type ProductId = int
  type ImageKey = string

  /** The script-side values an image-data entry may hold. Objects are
      modelled without a `length` property of their own. */
  datatype Data =
    | Null
    | Bool(b: bool)
    | Num(n: int)
    | Str(s: string)
    | Arr(items: seq<string>)
    | Obj(fields: map<string, string>)

  type Entry = map<ImageKey, Data>
  type ProductImages = map<ProductId, Entry>

  /** The value's truthiness: null, false, 0 and the empty string are falsy. */
  predicate Truthy(d: Data) {
    match d
    case Null => false
    case Bool(b) => b
    case Num(n) => n != 0
    case Str(s) => s != ""
    case Arr(_) => true
    case Obj(_) => true
  }

  /** The value's `length` property, when it has one. */
  function Length(d: Data): Option<nat> {
    match d
    case Str(s) => Some(|s|)
    case Arr(items) => Some(|items|)
    case _ => None
  }

  /** Existing data that must be kept: it is truthy, and its length, if it
      has one, is not zero. */
  predicate AlreadyLoaded(d: Data)
    ensures d.Arr? ==> (AlreadyLoaded(d) <==> |d.items| > 0)
    ensures !d.Arr? ==> (AlreadyLoaded(d) <==> Truthy(d))
  {
    Truthy(d) && (Length(d).None? || Length(d).value != 0)
  }

  /** Whether `entry` holds data for `k` that a fallback must not replace. */
  predicate Keeps(entry: Entry, k: ImageKey) {
    k in entry && AlreadyLoaded(entry[k])
  }

  /** The per-key merge into an existing product entry. */
  function MergeEntry(entry: Entry, incoming: Entry): (r: Entry)
    ensures r.Keys == entry.Keys + incoming.Keys
    ensures forall k :: k in entry && (k !in incoming || Keeps(entry, k)) ==> r[k] == entry[k]
    ensures forall k :: k in incoming && !Keeps(entry, k) ==> r[k] == incoming[k]
  {
    map k | k in entry.Keys + incoming.Keys ::
      if k in incoming && !Keeps(entry, k) then incoming[k] else entry[k]
  }

  /** The registry after registering `fallback` for product `id`, stated
      key by key. A product without an entry takes the whole fallback,
      unless that fallback has no key at all, in which case nothing is
      registered. */
  function FallbackMerge(images: ProductImages, id: ProductId, fallback: Entry): (r: ProductImages)
    ensures fallback == map[] ==> r == images
    ensures fallback != map[] ==> r.Keys == images.Keys + {id}
    ensures forall q :: q in images && q != id ==> q in r && r[q] == images[q]
    ensures id !in images && fallback != map[] ==> r[id] == fallback
    ensures id in images ==> r[id].Keys == images[id].Keys + fallback.Keys
    ensures id in images ==>
      forall k :: Keeps(images[id], k) ==> r[id][k] == images[id][k]
    ensures id in images ==>
      forall k :: k in fallback && !Keeps(images[id], k) ==> r[id][k] == fallback[k]
    ensures id in images ==>
      forall k :: k in images[id] && k !in fallback ==> r[id][k] == images[id][k]
  {
    if fallback == map[] then images
    else if id !in images then images[id := fallback]
    else images[id := MergeEntry(images[id], fallback)]
  }

  /** The keys of `fallback` among the first `n` of `order`, with their values. */
  function Prefix(fallback: Entry, order: seq<ImageKey>, n: nat): (r: Entry)
    requires n <= |order|
    ensures forall k :: k in r <==> k in fallback && k in order[..n]
    ensures forall k :: k in r ==> r[k] == fallback[k]
  {
    map k | k in fallback && k in order[..n] :: fallback[k]
  }

  lemma MergeEntryStep(entry: Entry, fallback: Entry, order: seq<ImageKey>, n: nat)
    requires n < |order| && order[n] in fallback
    ensures var cur := MergeEntry(entry, Prefix(fallback, order, n));
      var k := order[n];
      MergeEntry(entry, Prefix(fallback, order, n + 1)) ==
        if Keeps(cur, k) then cur else cur[k := fallback[k]]
  {
  }

  /** Registers `fallback` for product `id` one key at a time, visiting its
      keys in the enumeration order `order`. A product without an entry is
      given the fallback object itself on the first key, after which the
      remaining keys find their own values already in place. */
  method SetImageFallback(images: ProductImages, id: ProductId, fallback: Entry, order: seq<ImageKey>)
    returns (r: ProductImages)
    requires forall k :: k in fallback <==> k in order
    ensures r == FallbackMerge(images, id, fallback)
  {
    r := images;
    if id in images {
      assert Prefix(fallback, order, 0) == map[];
      assert MergeEntry(images[id], map[]) == images[id];
    }
    for n := 0 to |order|
      invariant id !in images ==> r == (if n == 0 then images else images[id := fallback])
      invariant id in images ==>
        r == images[id := MergeEntry(images[id], Prefix(fallback, order, n))]
    {
      var k := order[n];
      var oldData: Option<Data> := if id in r && k in r[id] then Some(r[id][k]) else None;
      if oldData.Some? && AlreadyLoaded(oldData.value) {
        // loaded data is kept
      } else if id !in r {
        r := r[id := fallback];
      } else {
        r := r[id := r[id][k := fallback[k]]];
      }
      if id in images {
        MergeEntryStep(images[id], fallback, order, n);
      } else {
        assert fallback[k := fallback[k]] == fallback;
      }
    }
    if order == [] {
      assert fallback.Keys == {};
    } else {
      assert order[0] in fallback;
    }
    if id in images {
      assert Prefix(fallback, order, |order|) == fallback by {
        assert order[..|order|] == order;
      }
      assert MergeEntry(images[id], map[]) == images[id];
    }
  }

  /** Registering the same fallback twice leaves the registry as the first
      registration did. */
  lemma {:induction false} FallbackMergeIdempotent(images: ProductImages, id: ProductId, fallback: Entry)
    ensures var once := FallbackMerge(images, id, fallback);
      FallbackMerge(once, id, fallback) == once
  {
    var once := FallbackMerge(images, id, fallback);
    if fallback != map[] {
      var e := once[id];
      assert MergeEntry(e, fallback) == e by {
        forall k | k in fallback && !Keeps(e, k)
          ensures fallback[k] == e[k]
        {
          assert !(id in images && Keeps(images[id], k));
        }
      }
    }
  }
}
