/**
 * The static product catalog and its lookup by slug (`src/data/products.ts`).
 * Only the identifying and commercial fields of a product are kept; the
 * marketing copy, images, benefit lists and FAQs are not part of this model.
 */
module Catalog {
  import opened Wrappers

  datatype Product = Product(
    id: string,
    slug: string,
    name: string,
    priceText: string,
    hotmartCheckoutUrl: string,
    wistiaMediaId: Option<string>,
    wistiaAspect: Option<string>,
    wistiaMediaId2: Option<string>,
    wistiaAspect2: Option<string>,
    videoDividerText: Option<string>)

  /** The `products` array, in declaration order. */
  const Products: seq<Product> := [
    Product("1", "5000-atividades", "+5000 Atividades", "€10,00",
      "https://pay.hotmart.com/I103359542I?checkoutMode=2",
      Some("kfrilcm89f"), Some("0.75"), None, None, None),
    Product("2", "kit-completo-alfabetizacao", "Kit Completo da Alfabetização", "€7,00",
      "https://pay.hotmart.com/L102314316U?checkoutMode=2&off=apbz9nqw",
      Some("wokphhfz63"), Some("0.5625"), Some("ys9jtv5vcm"), Some("0.5625"),
      Some("Veja como as Atividades Funcionam:")),
    Product("3", "kit-sala-de-aula-1-hora", "Kit Sala de Aula em 1 Hora", "€3,90",
      "https://pay.hotmart.com/W104304323F?checkoutMode=2&off=cthtqi23",
      None, None, None, None, None),
    Product("4", "moldes-novos-todos-os-meses", "Moldes Novos Todos os Meses", "€3,90",
      "https://pay.hotmart.com/X104304560X?checkoutMode=2",
      None, None, None, None, None),
    Product("5", "painel-das-palavras", "Painel das Palavras", "€5,00",
      "https://pay.hotmart.com/O102313182J?checkoutMode=2",
      None, None, None, None, None),
    Product("6", "palavras-escondidas", "Palavras Escondidas", "€5,00",
      "https://pay.hotmart.com/J102380393P?checkoutMode=2",
      Some("hqc0ir1wq6"), Some("0.5625"), None, None, None),
    Product("7", "5000-moldes-eva", "+5000 Moldes de EVA", "€10,00",
      "https://pay.hotmart.com/N104202645J?off=nj0lu8n9&checkoutMode=2",
      None, None, None, None, None)
  ]

  /** No two catalog entries share a slug, and none share an id. */
  predicate DistinctKeys(ps: seq<Product>) {
    forall i, j :: 0 <= i < j < |ps| ==> ps[i].slug != ps[j].slug && ps[i].id != ps[j].id
  }

  /** The catalog has seven products with distinct ids and distinct slugs. */
  lemma CatalogWellFormed()
    ensures |Products| == 7
    ensures DistinctKeys(Products)
  {
    // Ids differ in their only character; slugs of equal length differ in their
    // third or their last character.
    forall i, j | 0 <= i < j < |Products|
      ensures Products[i].slug != Products[j].slug && Products[i].id != Products[j].id
    {
      var a, b := Products[i], Products[j];
      assert a.id[0] != b.id[0];
      assert |a.slug| != |b.slug| || a.slug[2] != b.slug[2] || a.slug[|a.slug| - 1] != b.slug[|b.slug| - 1];
    }
  }

  /** `getProducts`: the catalog, unchanged. */
  function GetProducts(): (ps: seq<Product>)
    ensures |ps| == 7 && DistinctKeys(ps)
  {
    CatalogWellFormed();
    Products
  }

  /** `Array.prototype.find` on slugs: the first product carrying `slug`. */
  function FindBySlug(ps: seq<Product>, slug: string): (r: Option<Product>)
    ensures r.None? <==> forall i :: 0 <= i < |ps| ==> ps[i].slug != slug
    ensures r.Some? ==> r.value.slug == slug && exists i :: (0 <= i < |ps| && ps[i] == r.value
                          && forall j :: 0 <= j < i ==> ps[j].slug != slug)
  {
    if ps == [] then None
    else if ps[0].slug == slug then Some(ps[0])
    else
      var r := FindBySlug(ps[1..], slug);
      assert r.Some? ==> exists i :: (0 <= i < |ps| - 1 && ps[1..][i] == r.value
                          && forall j :: 0 <= j < i ==> ps[1..][j].slug != slug);
      r
  }

  /** `getProductBySlug`. */
  function GetProductBySlug(slug: string): (r: Option<Product>)
    ensures r.None? <==> forall p :: p in Products ==> p.slug != slug
    ensures r.Some? ==> r.value in Products && r.value.slug == slug
  {
    FindBySlug(Products, slug)
  }

  /** In a list with distinct slugs, looking up an entry's slug finds that entry. */
  lemma {:induction false} FindBySlugOfMember(ps: seq<Product>, k: nat)
    requires k < |ps| && DistinctKeys(ps)
    ensures FindBySlug(ps, ps[k].slug) == Some(ps[k])
  {
    if k > 0 {
      assert ps[0].slug != ps[k].slug;
      assert DistinctKeys(ps[1..]) by {
        forall i, j | 0 <= i < j < |ps| - 1
          ensures ps[1..][i].slug != ps[1..][j].slug && ps[1..][i].id != ps[1..][j].id
        {
          assert ps[1..][i] == ps[i + 1] && ps[1..][j] == ps[j + 1];
        }
      }
      FindBySlugOfMember(ps[1..], k - 1);
    }
  }

  /** Round trip: every catalog product is what `getProductBySlug` returns for its slug. */
  lemma LookupRoundTrip(p: Product)
    requires p in Products
    ensures GetProductBySlug(p.slug) == Some(p)
  {
    CatalogWellFormed();
    var k :| 0 <= k < |Products| && Products[k] == p;
    FindBySlugOfMember(Products, k);
  }
}
