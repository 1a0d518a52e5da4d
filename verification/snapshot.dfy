/** The results page reads a snapshot left in browser storage exactly once: it
    checks the two keys, parses and shape-checks the recommendations, and either
    sends the user home with storage untouched or shows the data and deletes both
    keys. */
module Snapshot {
  import opened Common

  /** A parsed JSON value. Numbers are kept as exact reals. */
  datatype Json =
    | JNull
    | JBool(b: bool)
    | JNumber(n: real)
    | JString(s: string)
    | JArray(items: seq<Json>)
    | JObject(fields: map<string, Json>)

  /** What `JSON.parse` gives for a text: a value, or a thrown syntax error. */
  datatype Parsed = Value(value: Json) | SyntaxError

  const RecommendationsKey: string := "recommendations"
  const GoalKey: string := "originalGoal"

  /** JavaScript truthiness of a parsed value: of the values JSON can produce, only
      `null`, `false`, `0` and `""` are falsy (ToBoolean, section 7.1.2 of ECMA-262). */
  predicate Truthy(v: Json): (r: bool)
    ensures !r <==> v in {JNull, JBool(false), JNumber(0.0), JString("")}
  {
    match v
    case JNull => false
    case JBool(b) => b
    case JNumber(n) => n != 0.0
    case JString(s) => s != ""
    case JArray(_) => true
    case JObject(_) => true
  }

  /** Reading property `key` of a value that is not `null`: `None` is `undefined`.
      Only objects have the two properties read here. */
  function Property(v: Json, key: string): Option<Json>
    requires !v.JNull?
  {
    if v.JObject? && key in v.fields then Some(v.fields[key]) else None
  }

  /** The shape check: a truthy `vibe_analysis` and a `products` array. Arrays are
      always truthy, so the separate `!products` test never decides anything. */
  predicate WellShaped(v: Json): (r: bool)
    requires !v.JNull?
    ensures r <==>
      && v.JObject?
      && "vibe_analysis" in v.fields && Truthy(v.fields["vibe_analysis"])
      && "products" in v.fields && v.fields["products"].JArray?
  {
    var vibe := Property(v, "vibe_analysis");
    var products := Property(v, "products");
    && vibe.Some? && Truthy(vibe.value)
    && products.Some? && Truthy(products.value)
    && products.value.JArray?
  }

  /** Why the page sent the user home. */
  datatype Refusal = MissingSnapshot | InvalidShape | Threw

  /** What the page ends up showing. */
  datatype Outcome = Redirect(reason: Refusal) | Show(data: Json, goal: string)

  datatype Mounted = Mounted(outcome: Outcome, store: map<string, string>)

  /** `localStorage.getItem(key)` read as a condition: absent and empty are both falsy. */
  predicate Present(store: map<string, string>, key: string)
  {
    key in store && store[key] != ""
  }

  /** The delayed mount effect, with `parse` standing for `JSON.parse`. Reading a
      property of a parsed `null` throws, and so ends like a syntax error. */
  function Mount(store: map<string, string>, parse: string -> Parsed): (r: Mounted)
    ensures !Present(store, RecommendationsKey) || !Present(store, GoalKey) ==>
      r == Mounted(Redirect(MissingSnapshot), store)
    ensures r.outcome.Redirect? ==> r.store == store
    ensures r.outcome.Show? <==>
      && Present(store, RecommendationsKey) && Present(store, GoalKey)
      && parse(store[RecommendationsKey]).Value?
      && !parse(store[RecommendationsKey]).value.JNull?
      && WellShaped(parse(store[RecommendationsKey]).value)
    ensures r.outcome.Show? ==>
      && r.outcome.data == parse(store[RecommendationsKey]).value
      && r.outcome.goal == store[GoalKey]
      && r.store.Keys == store.Keys - {RecommendationsKey, GoalKey}
      && forall k :: k in r.store ==> r.store[k] == store[k]
  {
    if !Present(store, RecommendationsKey) || !Present(store, GoalKey) then
      Mounted(Redirect(MissingSnapshot), store)
    else
      match parse(store[RecommendationsKey])
      case SyntaxError => Mounted(Redirect(Threw), store)
      case Value(v) =>
        if v.JNull? then Mounted(Redirect(Threw), store)
        else if !WellShaped(v) then Mounted(Redirect(InvalidShape), store)
        else Mounted(Show(v, store[GoalKey]), store - {RecommendationsKey, GoalKey})
  }

  /** The snapshot is consumed: mounting again on what the first mount left always
      sends the user home, and a first refusal is simply repeated. */
  lemma SecondMountRedirects(store: map<string, string>, parse: string -> Parsed)
    ensures var first := Mount(store, parse);
      && Mount(first.store, parse).outcome.Redirect?
      && (first.outcome.Show? ==> Mount(first.store, parse).outcome == Redirect(MissingSnapshot))
  {
    var first := Mount(store, parse);
    if first.outcome.Show? {
      assert RecommendationsKey !in first.store;
    }
  }

  /** A falsy `vibe_analysis`, the empty string included, is refused. */
  lemma FalsyVibeRefused(store: map<string, string>, parse: string -> Parsed, fields: map<string, Json>)
    requires Present(store, RecommendationsKey) && Present(store, GoalKey)
    requires parse(store[RecommendationsKey]) == Value(JObject(fields))
    requires "vibe_analysis" in fields && !Truthy(fields["vibe_analysis"])
    ensures Mount(store, parse) == Mounted(Redirect(InvalidShape), store)
  {
  }

  /** A worked example: goal "relax more" and a one-product recommendation. */
  lemma ExampleSnapshot()
    ensures var text := "{\"vibe_analysis\":\"calm\",\"products\":[{\"name\":\"Candle\",\"reason\":\"ambiance\",\"category\":\"home\"}]}";
      var candle := JObject(map["name" := JString("Candle"), "reason" := JString("ambiance"), "category" := JString("home")]);
      var data := JObject(map["vibe_analysis" := JString("calm"), "products" := JArray([candle])]);
      var store := map[RecommendationsKey := text, GoalKey := "relax more", "theme" := "dark"];
      var r := Mount(store, t => if t == text then Value(data) else SyntaxError);
      && r.outcome == Show(data, "relax more")
      && r.store == map["theme" := "dark"]
  {
    var text := "{\"vibe_analysis\":\"calm\",\"products\":[{\"name\":\"Candle\",\"reason\":\"ambiance\",\"category\":\"home\"}]}";
    var store := map[RecommendationsKey := text, GoalKey := "relax more", "theme" := "dark"];
    assert store - {RecommendationsKey, GoalKey} == map["theme" := "dark"];
  }

  /** Where "Browse" leads: the suggested-products page with the index and the
      product name (before URI encoding). */
  datatype Browse = Browse(index: int, productName: string)

  /** The Browse button's handler: an empty name goes nowhere. */
  function ViewProducts(index: int, productName: string): (r: Option<Browse>)
    ensures r.None? <==> productName == ""
    ensures r.Some? ==> r.value.index == index && r.value.productName == productName
  {
    if productName == "" then None else Some(Browse(index, productName))
  }
}
