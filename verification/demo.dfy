/** The scene page's view state and its handlers: choosing a category, going back,
    opening and closing a hit's detail, and refreshing the hits. Each handler runs as
    one step; the search answers it awaits are its inputs, and the calls it issues
    are part of its result. */
module Demo {
  import opened Common
  import opened Catalog
  import opened RefreshAttempts
  import Scene

  /** Everything the page keeps: the recommendations, the selected category index,
      the hits on screen, the loading flag, the hit whose detail is open, the URLs
      shown so far and the refresh-in-flight flag. */
  datatype ViewState = ViewState(
    data: Option<RecommendationResponse>,
    selected: Option<int>,
    results: seq<SearchProduct>,
    loading: bool,
    detail: Option<SearchProduct>,
    shown: set<string>,
    refreshing: bool)

  const Blank := ViewState(None, None, [], false, None, {}, false)

  /** A handler's new state and the search calls it issued, in order. */
  datatype Step = Step(state: ViewState, calls: seq<SearchCall>)

  /** How the page's mount effect ends: sent back home (after a fetch or not), or
      ready with the recommendations. */
  datatype Arrival = GoHome(fetched: bool) | Ready(state: ViewState)

  /** The mount effect: no `goal` parameter (or an empty one) sends the user home
      without fetching; otherwise the recommendations are fetched once. */
  function Arrive(goal: Option<string>, answer: Option<RecommendationResponse>): (r: Arrival)
    ensures goal.None? || goal == Some("") ==> r == GoHome(false)
    ensures goal.Some? && goal.value != "" ==> (r.Ready? <==> answer.Some?)
    ensures goal.Some? && goal.value != "" && r.GoHome? ==> r.fetched
    ensures r.Ready? ==> r.state.data == answer && r.state.selected.None? && r.state.shown == {}
  {
    if goal.None? || goal.value == "" then GoHome(false)
    else match answer
      case None => GoHome(true)
      case Some(response) => Ready(Blank.(data := Some(response)))
  }

  /** `data.products[index]` when `data` is present and the index is in range. */
  function ProductAt(s: ViewState, index: int): Option<Product>
  {
    if s.data.Some? && 0 <= index < |s.data.value.products| then Some(s.data.value.products[index])
    else None
  }

  /** The category click handler. Clicking the selected category unselects it;
      clicking another selects it and, when that category exists, searches for a
      page of hits whose URLs join the shown set. */
  function Click(s: ViewState, index: int, answer: SearchResponse): (r: Step)
    ensures s.selected == Some(index) ==> r == Step(s.(selected := None, results := []), [])
    ensures s.selected != Some(index) ==>
      && r.state.selected == Some(index)
      && r.state.data == s.data && r.state.detail == s.detail && r.state.refreshing == s.refreshing
    ensures s.selected != Some(index) && ProductAt(s, index).None? ==>
      && r.calls == [] && r.state.loading
      && r.state.results == s.results && r.state.shown == s.shown
    ensures s.selected != Some(index) && ProductAt(s, index).Some? ==>
      && r.calls == [SearchCall(ProductAt(s, index).value.name, PageSize)]
      && !r.state.loading
      && r.state.shown == s.shown + Urls(r.state.results)
      && (answer.Found? ==> r.state.results == answer.products)
      && (answer.Failed? ==> r.state.results == [])
  {
    if s.selected == Some(index) then Step(s.(selected := None, results := []), [])
    else
      var chosen := s.(selected := Some(index), loading := true);
      match ProductAt(s, index)
      case None => Step(chosen, [])
      case Some(product) =>
        var calls := [SearchCall(product.name, PageSize)];
        match answer
        case Failed => Step(chosen.(results := [], loading := false), calls)
        case Found(products) =>
          Step(chosen.(results := products, shown := s.shown + Urls(products), loading := false), calls)
  }

  /** The Back button: nothing selected, no hits, no detail. */
  function Back(s: ViewState): (r: ViewState)
    ensures r.selected.None? && r.results == [] && r.detail.None?
    ensures r.data == s.data && r.shown == s.shown && r.loading == s.loading && r.refreshing == s.refreshing
  {
    s.(selected := None, results := [], detail := None)
  }

  /** Clicking a hit's card opens its detail. */
  function OpenDetail(s: ViewState, p: SearchProduct): (r: ViewState)
    ensures r.detail == Some(p)
    ensures r == s.(detail := r.detail)
  {
    s.(detail := Some(p))
  }

  /** The detail's close button. */
  function CloseDetail(s: ViewState): (r: ViewState)
    ensures r.detail.None?
    ensures r == s.(detail := r.detail)
  {
    s.(detail := None)
  }

  /** The refresh handler refuses to start without a selection, without data, or
      while a refresh is in flight. */
  predicate RefreshStarts(s: ViewState)
  {
    s.selected.Some? && s.data.Some? && !s.refreshing
  }

  /** `n` filtered search calls for `name`. */
  function Filtered(name: string, n: nat): (r: seq<SearchCall>)
    ensures |r| == n
    ensures forall j :: 0 <= j < n ==> r[j] == SearchCall(name, FilteredLimit)
  {
    seq(n, _ => SearchCall(name, FilteredLimit))
  }

  /** The refresh handler. `answers(j)` answers the `j`-th search call it issues.
      It clears the hits and the detail, runs the filtered attempts, and falls back
      to one unfiltered page when every attempt was barren. A thrown error (from a
      call, or from reading a selected index that is out of range) leaves no hits. */
  function Refresh(s: ViewState, answers: nat -> SearchResponse): (r: Step)
    ensures !RefreshStarts(s) ==> r == Step(s, [])
    ensures RefreshStarts(s) ==>
      && !r.state.refreshing && !r.state.loading && r.state.detail.None?
      && r.state.selected == s.selected && r.state.data == s.data
      && r.state.shown == s.shown + Urls(r.state.results)
    ensures RefreshStarts(s) && ProductAt(s, s.selected.value).None? ==>
      r.state.results == [] && r.calls == [] && r.state.shown == s.shown
    ensures |r.calls| <= MaxAttempts + 1
    ensures forall j :: 0 <= j < |r.calls| ==>
      r.calls[j].limit == (if j < MaxAttempts then FilteredLimit else PageSize)
    ensures forall j :: 0 <= j < |r.calls| ==>
      s.selected.Some? && ProductAt(s, s.selected.value).Some?
      && r.calls[j].query == ProductAt(s, s.selected.value).value.name
    ensures |r.calls| == MaxAttempts + 1 ==> forall j :: 0 <= j < MaxAttempts ==> Barren(answers, s.shown, j)
  {
    if !RefreshStarts(s) then Step(s, [])
    else
      var cleared := s.(results := [], detail := None, refreshing := false, loading := false);
      match ProductAt(s, s.selected.value)
      case None => Step(cleared, [])
      case Some(product) =>
        var name := product.name;
        match Attempts(answers, s.shown, 0)
        case Threw(n) => Step(cleared, Filtered(name, n))
        case Accepted(batch, n) =>
          Step(cleared.(results := batch, shown := s.shown + Urls(batch)), Filtered(name, n))
        case Exhausted =>
          var calls := Filtered(name, MaxAttempts) + [SearchCall(name, PageSize)];
          match answers(MaxAttempts)
          case Failed => Step(cleared, calls)
          case Found(products) =>
            Step(cleared.(results := products, shown := s.shown + Urls(products)), calls)
  }

  /** A refresh whose first attempt with something new is attempt `m` shows that
      attempt's new hits, cut to a page: none of them was shown when it started. */
  lemma RefreshShowsFirstFresh(s: ViewState, answers: nat -> SearchResponse, m: nat)
    requires RefreshStarts(s) && ProductAt(s, s.selected.value).Some?
    requires m < MaxAttempts
    requires forall j :: 0 <= j < m ==> Barren(answers, s.shown, j)
    requires answers(m).Found? && |Unseen(answers(m).products, s.shown)| > 0
    ensures var r := Refresh(s, answers);
      && r.state.results == TakePage(Unseen(answers(m).products, s.shown))
      && 0 < |r.state.results| == Min(|Unseen(answers(m).products, s.shown)|, PageSize)
      && (forall i :: 0 <= i < |r.state.results| ==> r.state.results[i].url !in s.shown)
      && |r.calls| == m + 1
  {
    FirstFreshAccepted(answers, s.shown, 0, m);
  }

  /** When all five attempts bring nothing new, the refresh shows one unfiltered page
      (or nothing, if that last call throws). */
  lemma RefreshFallsBack(s: ViewState, answers: nat -> SearchResponse)
    requires RefreshStarts(s) && ProductAt(s, s.selected.value).Some?
    requires forall j :: 0 <= j < MaxAttempts ==> Barren(answers, s.shown, j)
    ensures var r := Refresh(s, answers);
      && |r.calls| == MaxAttempts + 1
      && r.state.results == (if answers(MaxAttempts).Found? then answers(MaxAttempts).products else [])
  {
  }

  /** A call that throws before any attempt brought something new ends the refresh
      with no hits and the shown set as it was. */
  lemma RefreshErrorShowsNothing(s: ViewState, answers: nat -> SearchResponse, m: nat)
    requires RefreshStarts(s) && ProductAt(s, s.selected.value).Some?
    requires m <= MaxAttempts
    requires forall j :: 0 <= j < m ==> Barren(answers, s.shown, j)
    requires answers(m).Failed?
    ensures Refresh(s, answers).state.results == []
    ensures Refresh(s, answers).state.shown == s.shown
  {
    var a := Attempts(answers, s.shown, 0);
    if m < MaxAttempts {
      assert !Barren(answers, s.shown, m);
      assert a.Threw? ==> !Barren(answers, s.shown, a.calls - 1);
      assert a.Accepted? ==> !Barren(answers, s.shown, a.calls - 1);
    }
  }

  /** Unselecting by clicking the selected category and by pressing Back agree while
      no detail is open (the scene, and so its items, is only drawn then). */
  lemma ToggleOffIsBack(s: ViewState, answer: SearchResponse)
    requires s.selected.Some? && s.detail.None?
    ensures Click(s, s.selected.value, answer) == Step(Back(s), [])
  {
  }

  /** Clicking an item twice returns to no selection and no hits, with one search. */
  lemma ClickTwice(s: ViewState, index: int, first: SearchResponse, second: SearchResponse)
    requires s.selected != Some(index) && ProductAt(s, index).Some?
    ensures var once := Click(s, index, first);
      var twice := Click(once.state, index, second);
      && twice.state.selected.None? && twice.state.results == []
      && |once.calls + twice.calls| == 1
      && s.shown <= twice.state.shown
  {
  }

  /** What the user can do on the page. */
  datatype SceneEvent =
    | ClickItem(index: int, answer: SearchResponse)
    | PressRefresh(answers: nat -> SearchResponse)
    | PressBack
    | OpenCard(index: int)
    | CloseCard

  /** The 3D scene, and so its items, is drawn while data is present and no detail is open.
      While one item is selected the others are parked far away at `Scene.Hidden`; they
      are still counted as clickable here, so this guard admits at least every click
      the page can receive. */
  predicate ItemClickable(s: ViewState, index: int)
  {
    s.data.Some? && s.detail.None? && 0 <= index < Min(|s.data.value.products|, Scene.MaxPlaced)
  }

  /** The hit panel, with its Refresh and Back buttons, is drawn while a category is selected. */
  predicate PanelShown(s: ViewState)
  {
    s.data.Some? && s.selected.Some?
  }

  /** A card is clickable when the grid is drawn and the card is not the one being viewed. */
  predicate CardClickable(s: ViewState, index: int)
  {
    PanelShown(s) && !s.loading && 0 <= index < |s.results|
    && !(s.detail.Some? && s.detail.value.url == s.results[index].url)
  }

  /** One event, delivered only when the control it needs is drawn (and, for Refresh,
      enabled). For the scene's items this over-approximates what is in view: see
      `ItemClickable`. */
  function Deliver(s: ViewState, e: SceneEvent): (r: Step)
    ensures s.shown <= r.state.shown
  {
    match e
    case ClickItem(index, answer) =>
      if ItemClickable(s, index) then Click(s, index, answer) else Step(s, [])
    case PressRefresh(answers) =>
      if PanelShown(s) && !s.refreshing then Refresh(s, answers) else Step(s, [])
    case PressBack =>
      if PanelShown(s) then Step(Back(s), []) else Step(s, [])
    case OpenCard(index) =>
      if CardClickable(s, index) then Step(OpenDetail(s, s.results[index]), []) else Step(s, [])
    case CloseCard =>
      if s.data.Some? && s.detail.Some? then Step(CloseDetail(s), []) else Step(s, [])
  }

  function Run(s: ViewState, es: seq<SceneEvent>): ViewState
    decreases |es|
  {
    if |es| == 0 then s else Run(Deliver(s, es[0]).state, es[1..])
  }

  /** No event ever removes a URL from the shown set: it is extended by union only,
      also when another category is chosen. */
  lemma {:induction false} ShownOnlyGrows(s: ViewState, es: seq<SceneEvent>)
    ensures s.shown <= Run(s, es).shown
    decreases |es|
  {
    if |es| > 0 {
      ShownOnlyGrows(Deliver(s, es[0]).state, es[1..]);
    }
  }

  /** What holds between events once the recommendations are loaded: the selection
      is a drawn item, a detail is only open under a selection, every hit on screen
      is recorded as shown, and no handler is left half-way. */
  predicate Settled(s: ViewState)
  {
    && s.data.Some?
    && (s.selected.Some? ==> 0 <= s.selected.value < Min(|s.data.value.products|, Scene.MaxPlaced))
    && (s.detail.Some? ==> s.selected.Some?)
    && Urls(s.results) <= s.shown
    && !s.refreshing && !s.loading
  }

  lemma DeliverKeepsSettled(s: ViewState, e: SceneEvent)
    requires Settled(s)
    ensures Settled(Deliver(s, e).state)
  {
  }

  /** Every state reached from a loaded page is settled. */
  lemma {:induction false} RunKeepsSettled(s: ViewState, es: seq<SceneEvent>)
    requires Settled(s)
    ensures Settled(Run(s, es))
    decreases |es|
  {
    if |es| > 0 {
      DeliverKeepsSettled(s, es[0]);
      RunKeepsSettled(Deliver(s, es[0]).state, es[1..]);
    }
  }

  /** On a settled page a drawn item always names an existing category, so a click
      on an unselected item always issues its one search and ends not loading: the
      handler's no-search branch, which would leave the page loading, is never taken. */
  lemma SettledClickSearches(s: ViewState, index: int, answer: SearchResponse)
    requires Settled(s) && ItemClickable(s, index) && s.selected != Some(index)
    ensures |Click(s, index, answer).calls| == 1
    ensures !Click(s, index, answer).state.loading
  {
  }

  /** A loaded page starts settled. */
  lemma ArrivalSettled(goal: Option<string>, answer: Option<RecommendationResponse>)
    requires Arrive(goal, answer).Ready?
    ensures Settled(Arrive(goal, answer).state)
  {
  }
}
