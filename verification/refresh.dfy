/** The refresh rule of the scene page: ask the search service up to five times for
    twelve hits, keep the hits whose URL has not been shown yet, and accept the first
    non-empty batch, cut to six. */
module RefreshAttempts {
  import opened Common
  import opened Catalog

  const MaxAttempts: nat := 5

  /** How many hits each filtered attempt asks for. */
  const FilteredLimit: nat := 12

  /** How many hits a page holds; also the fallback and click request size. */
  const PageSize: nat := 6

  /** The hits of `batch` whose URL is not in `shown`, in response order. */
  function Unseen(batch: seq<SearchProduct>, shown: set<string>): (r: seq<SearchProduct>)
    ensures |r| <= |batch|
    ensures forall i :: 0 <= i < |r| ==> r[i].url !in shown
    decreases |batch|
  {
    if |batch| == 0 then []
    else (if batch[0].url in shown then [] else [batch[0]]) + Unseen(batch[1..], shown)
  }

  /** A hit is kept exactly when it is in the batch and its URL was not shown. */
  lemma {:induction false} UnseenMembers(batch: seq<SearchProduct>, shown: set<string>, p: SearchProduct)
    ensures p in Unseen(batch, shown) <==> p in batch && p.url !in shown
    decreases |batch|
  {
    if |batch| > 0 {
      UnseenMembers(batch[1..], shown, p);
      assert batch == [batch[0]] + batch[1..];
    }
  }

  /** Filtering a concatenation filters each part: the kept hits stay in response order. */
  lemma {:induction false} UnseenAppend(a: seq<SearchProduct>, b: seq<SearchProduct>, shown: set<string>)
    ensures Unseen(a + b, shown) == Unseen(a, shown) + Unseen(b, shown)
    decreases |a|
  {
    if |a| > 0 {
      assert (a + b)[1..] == a[1..] + b;
      UnseenAppend(a[1..], b, shown);
    } else {
      assert a + b == b;
    }
  }

  /** At most a page of hits, from the front. */
  function TakePage(u: seq<SearchProduct>): (r: seq<SearchProduct>)
    ensures |r| == Min(|u|, PageSize)
    ensures r == u[..|r|]
  {
    if |u| >= PageSize then u[..PageSize] else u
  }

  /** Attempt `k` of a refresh came back with nothing new. */
  predicate Barren(answers: nat -> SearchResponse, shown: set<string>, k: nat)
  {
    answers(k).Found? && |Unseen(answers(k).products, shown)| == 0
  }

  /** How the filtered attempts of a refresh end: with a batch of new hits after
      `calls` calls, with every attempt barren, or with a thrown error on call `calls`. */
  datatype Attempted = Accepted(batch: seq<SearchProduct>, calls: nat) | Exhausted | Threw(calls: nat)

  /** The filtered attempts from attempt `k` on; `answers(j)` answers the `j`-th call. */
  function Attempts(answers: nat -> SearchResponse, shown: set<string>, k: nat): (r: Attempted)
    requires k <= MaxAttempts
    ensures r.Exhausted? <==> forall j :: k <= j < MaxAttempts ==> Barren(answers, shown, j)
    ensures r.Accepted? ==>
      && k < r.calls <= MaxAttempts
      && (forall j :: k <= j < r.calls - 1 ==> Barren(answers, shown, j))
      && answers(r.calls - 1).Found?
      && r.batch == TakePage(Unseen(answers(r.calls - 1).products, shown))
      && |r.batch| > 0
    ensures r.Threw? ==>
      && k < r.calls <= MaxAttempts
      && (forall j :: k <= j < r.calls - 1 ==> Barren(answers, shown, j))
      && answers(r.calls - 1).Failed?
    decreases MaxAttempts - k
  {
    if k == MaxAttempts then Exhausted
    else match answers(k)
      case Failed => assert !Barren(answers, shown, k); Threw(k + 1)
      case Found(products) =>
        var unseen := Unseen(products, shown);
        if |unseen| >= PageSize then assert !Barren(answers, shown, k); Accepted(unseen[..PageSize], k + 1)
        else if |unseen| > 0 then assert !Barren(answers, shown, k); Accepted(unseen, k + 1)
        else Attempts(answers, shown, k + 1)
  }

  /** The first attempt with something new decides the refresh: its new hits, cut to
      a page, are accepted. */
  lemma FirstFreshAccepted(answers: nat -> SearchResponse, shown: set<string>, k: nat, m: nat)
    requires k <= m < MaxAttempts
    requires forall j :: k <= j < m ==> Barren(answers, shown, j)
    requires answers(m).Found? && |Unseen(answers(m).products, shown)| > 0
    ensures Attempts(answers, shown, k) == Accepted(TakePage(Unseen(answers(m).products, shown)), m + 1)
  {
    var r := Attempts(answers, shown, k);
    assert !Barren(answers, shown, m);
    assert r.Threw? ==> !Barren(answers, shown, r.calls - 1);
    assert r.Accepted? ==> !Barren(answers, shown, r.calls - 1);
  }

  /** The same attempts written as the page writes them: a counted loop that breaks
      on the first attempt with something new or on the first thrown error. */
  method AttemptLoop(answers: nat -> SearchResponse, shown: set<string>)
    returns (newProducts: seq<SearchProduct>, calls: nat, threw: bool)
    ensures threw <==> Attempts(answers, shown, 0).Threw?
    ensures threw ==> calls == Attempts(answers, shown, 0).calls
    ensures Attempts(answers, shown, 0).Accepted? ==>
      newProducts == Attempts(answers, shown, 0).batch && calls == Attempts(answers, shown, 0).calls
    ensures Attempts(answers, shown, 0).Exhausted? ==> newProducts == [] && calls == MaxAttempts
  {
    var attempts := 0;
    newProducts := [];
    threw := false;
    while attempts < MaxAttempts
      invariant attempts <= MaxAttempts
      invariant newProducts == []
      invariant Attempts(answers, shown, 0) == Attempts(answers, shown, attempts)
      decreases MaxAttempts - attempts
    {
      var results := answers(attempts);
      if results.Failed? {
        threw := true;
        calls := attempts + 1;
        return;
      }
      var unseen := Unseen(results.products, shown);
      if |unseen| >= PageSize {
        newProducts := unseen[..PageSize];
        calls := attempts + 1;
        return;
      } else if |unseen| > 0 {
        newProducts := unseen;
        calls := attempts + 1;
        return;
      }
      attempts := attempts + 1;
    }
    calls := attempts;
  }
}
