/** The catalog record the batch scripts read and write (the Product model of
    the Prisma schema), the partial updates they issue, and the record store
    as an object holding every record by id. */
module Records {
  import opened Strings

  /** One Product row. `id` is the primary key and `code` is unique;
      `isDownloaded` and `isLiked` default to false; `isProcessing` is a
      nullable flag defaulting to false, and a null flag reads as false
      everywhere it is tested, so it is modelled as a plain bool. */
  datatype Product = Product(
    id: string,
    code: string,
    title: string,
    url: Option<string>,
    maker: Option<string>,
    series: Option<string>,
    genres: seq<string>,
    casts: seq<string>,
    mainImageUrl: Option<string>,
    subImageUrls: seq<string>,
    releasedAt: Option<int>,
    length: Option<int>,
    isLiked: bool,
    isDownloaded: bool,
    isProcessing: bool,
    downloadUrl: Option<string>,
    mediaUrls: seq<string>)

  /** A fresh record as the schema's defaults make it. */
  function NewProduct(id: string, code: string, title: string): (p: Product)
    ensures p.id == id && p.code == code && p.title == title
    ensures !p.isDownloaded && !p.isProcessing && !p.isLiked
    ensures p.mediaUrls == [] && p.downloadUrl.None?
  {
    Product(id, code, title, None, None, None, [], [], None, [], None, None,
            false, false, false, None, [])
  }

  /** The `data` of a `prisma.product.update` call made by the batch scripts:
      a field is written iff it is present. */
  datatype ProductUpdate = ProductUpdate(
    mediaUrls: Option<seq<string>>,
    isDownloaded: Option<bool>,
    isProcessing: Option<bool>)

  /** `{ isProcessing: b }` */
  function SetProcessing(b: bool): ProductUpdate {
    ProductUpdate(None, None, Some(b))
  }

  function Apply(p: Product, u: ProductUpdate): (q: Product)
    ensures q.id == p.id && q.code == p.code && q.downloadUrl == p.downloadUrl
    ensures q.mediaUrls == (if u.mediaUrls.Some? then u.mediaUrls.value else p.mediaUrls)
    ensures q.isDownloaded == (if u.isDownloaded.Some? then u.isDownloaded.value else p.isDownloaded)
    ensures q.isProcessing == (if u.isProcessing.Some? then u.isProcessing.value else p.isProcessing)
    ensures q == p.(mediaUrls := q.mediaUrls, isDownloaded := q.isDownloaded, isProcessing := q.isProcessing)
  {
    var p1 := if u.mediaUrls.Some? then p.(mediaUrls := u.mediaUrls.value) else p;
    var p2 := if u.isDownloaded.Some? then p1.(isDownloaded := u.isDownloaded.value) else p1;
    if u.isProcessing.Some? then p2.(isProcessing := u.isProcessing.value) else p2
  }

  /** Every record is filed under its own id, and no two records share a
      code. */
  ghost predicate WellFormed(records: map<string, Product>) {
    && (forall id | id in records :: records[id].id == id)
    && (forall i, j | i in records && j in records && records[i].code == records[j].code :: i == j)
  }

  function Lookup(records: map<string, Product>, id: string): (r: Option<Product>)
    ensures r.Some? <==> id in records
    ensures r.Some? ==> r.value == records[id]
  {
    if id in records then Some(records[id]) else None
  }

  /** An update of one existing record leaves the store well formed: it
      never changes an id or a code. */
  lemma UpdateKeepsWellFormed(records: map<string, Product>, id: string, u: ProductUpdate)
    requires WellFormed(records) && id in records
    ensures WellFormed(records[id := Apply(records[id], u)])
  {
    var r' := records[id := Apply(records[id], u)];
    forall i, j | i in r' && j in r' && r'[i].code == r'[j].code
      ensures i == j
    {
      assert r'[i].code == records[i].code && r'[j].code == records[j].code;
    }
  }

  /** The Product table. */
  class ProductStore {
    var records: map<string, Product>

    ghost predicate Valid()
      reads this
    {
      WellFormed(records)
    }

    constructor (initial: map<string, Product>)
      requires WellFormed(initial)
      ensures Valid() && records == initial
    {
      records := initial;
    }

    /** `prisma.product.findUnique({ where: { id } })` */
    method FindUnique(id: string) returns (p: Option<Product>)
      ensures p == Lookup(records, id)
    {
      p := Lookup(records, id);
    }

    /** `prisma.product.update({ where: { id }, data })`: writes the present
      fields of one record; reports false (Prisma throws) when no record has
      that id. */
    method Update(id: string, data: ProductUpdate) returns (found: bool)
      requires Valid()
      modifies this
      ensures Valid()
      ensures found == (id in old(records))
      ensures records == if found then old(records)[id := Apply(old(records)[id], data)] else old(records)
    {
      found := id in records;
      if found {
        UpdateKeepsWellFormed(records, id, data);
        records := records[id := Apply(records[id], data)];
      }
    }
  }
}
