/** The records the scene page exchanges with the recommendation and search services. */
module Catalog {

  /** One recommended product category, identified by its position in the list. */
  datatype Product = Product(name: string, reason: string, category: string)

  datatype RecommendationResponse = RecommendationResponse(vibeAnalysis: string, products: seq<Product>)

  /** One search hit. Price, image, platform, rating and condition are display-only
      and not modelled; the URL identifies the hit. */
  datatype SearchProduct = SearchProduct(title: string, url: string)

  /** The answer to one `searchProducts` call: its product list, or a thrown error. */
  datatype SearchResponse = Found(products: seq<SearchProduct>) | Failed

  /** One `searchProducts(query, limit)` call as issued. */
  datatype SearchCall = SearchCall(query: string, limit: nat)

  /** The URLs of a list of hits. */
  function Urls(items: seq<SearchProduct>): (r: set<string>)
    ensures forall i :: 0 <= i < |items| ==> items[i].url in r
    ensures forall u :: u in r ==> exists i :: 0 <= i < |items| && items[i].url == u
  {
    set i | 0 <= i < |items| :: items[i].url
  }
}
