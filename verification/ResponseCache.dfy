/** CacheInterceptor: one process-wide cache of successful responses, keyed by nothing but the URL. */
module ResponseCache {
  import opened Tables
  import C = CacheWrapper

  /** `rest` is everything else the handler's answer may depend on: method, headers, body, the hour. */
  datatype Request<X> = Request(url: string, rest: X)

  type Answer<T> = Result<T, string>

  /** A handler changes the application's state and answers or throws. */
  type Handler<!S, !X, T> = (S, Request<X>) -> (S, Answer<T>)

  datatype Site<S, T> = Site(state: S, cache: map<string, T>)

  function Serve<S, X, T>(h: Handler<S, X, T>, site: Site<S, T>, r: Request<X>): (Site<S, T>, Answer<T>) {
    if r.url in site.cache then
      (site, Ok(site.cache[r.url]))
    else
      var (state, a) := h(site.state, r);
      (Site(state, if a.Ok? then site.cache[r.url := a.value] else site.cache), a)
  }

  class CacheInterceptor<T> {
    const cache: C.CacheWrapper<T>

    constructor ()
      ensures fresh(cache) && cache.entries == map[]
    {
      cache := new C.CacheWrapper();
    }

    method Intercept<S, X>(h: Handler<S, X, T>, state: S, request: Request<X>)
      returns (state': S, answer: Answer<T>)
      modifies cache
      ensures (Site(state', cache.entries), answer) == Serve(h, Site(state, old(cache.entries)), request)
    {
      state' := state;
      var cached := cache.Has(request.url);
      if cached {
        var data := cache.Get(request.url);
        return state', Ok(data.value);
      }
      var (after, handled) := h(state, request);
      state', answer := after, handled;
      if answer.Ok? {
        cache.Set(request.url, answer.value);
      }
    }
  }

  // ---------------------------------------------------------------- runs

  /** All requests of a run, from an empty cache. */
  function After<S, X, T>(h: Handler<S, X, T>, state: S, rs: seq<Request<X>>): Site<S, T> {
    if rs == [] then Site(state, map[]) else Serve(h, After(h, state, rs[..|rs| - 1]), rs[|rs| - 1]).0
  }

  function AnswerTo<S, X, T>(h: Handler<S, X, T>, state: S, rs: seq<Request<X>>, j: nat): Answer<T>
    requires j < |rs|
  {
    Serve(h, After(h, state, rs[..j]), rs[j]).1
  }

  /** The same requests with no interceptor. */
  function Bare<S, X, T>(h: Handler<S, X, T>, state: S, rs: seq<Request<X>>): S {
    if rs == [] then state else h(Bare(h, state, rs[..|rs| - 1]), rs[|rs| - 1]).0
  }

  function BareAnswerTo<S, X, T>(h: Handler<S, X, T>, state: S, rs: seq<Request<X>>, j: nat): Answer<T>
    requires j < |rs|
  {
    h(Bare(h, state, rs[..j]), rs[j]).1
  }

  /** Request `i` is the earliest for its URL to be answered with success. */
  ghost predicate Earliest<S, X, T>(h: Handler<S, X, T>, state: S, rs: seq<Request<X>>, i: nat)
    requires i < |rs|
  {
    && AnswerTo(h, state, rs, i).Ok?
    && forall k: nat :: k < i && rs[k].url == rs[i].url ==> AnswerTo(h, state, rs, k).Err?
  }

  /** What is cached for a URL, told from the answers alone. */
  lemma {:induction false} CacheIsEarliest<S, X, T>(h: Handler<S, X, T>, state: S, rs: seq<Request<X>>, url: string)
    ensures var cache := After(h, state, rs).cache;
      if url in cache then
        exists i: nat :: i < |rs| && rs[i].url == url && Earliest(h, state, rs, i)
                         && AnswerTo(h, state, rs, i) == Ok(cache[url])
      else forall i: nat :: i < |rs| && rs[i].url == url ==> AnswerTo(h, state, rs, i).Err?
  {
    if rs != [] {
      var n := |rs| - 1;
      var init := rs[..n];
      CacheIsEarliest(h, state, init, url);
      forall i: nat | i < n ensures AnswerTo(h, state, rs, i) == AnswerTo(h, state, init, i) {
        assert rs[..i] == init[..i];
      }
      var before, after := After(h, state, init).cache, After(h, state, rs).cache;
      if url in before {
        var i: nat :| i < n && init[i].url == url && Earliest(h, state, init, i)
                      && AnswerTo(h, state, init, i) == Ok(before[url]);
        assert after[url] == before[url];
        assert Earliest(h, state, rs, i);
      } else if url in after {
        assert Earliest(h, state, rs, n);
      }
    }
  }

  /** `CacheIsEarliest` at request `j`, in terms of the whole run. */
  lemma EarlierAnswers<S, X, T>(h: Handler<S, X, T>, state: S, rs: seq<Request<X>>, j: nat)
    requires j < |rs|
    ensures var cache := After(h, state, rs[..j]).cache;
      if rs[j].url in cache then
        exists i: nat :: i < j && rs[i].url == rs[j].url && Earliest(h, state, rs, i)
                         && AnswerTo(h, state, rs, i) == Ok(cache[rs[j].url])
      else forall i: nat :: i < j && rs[i].url == rs[j].url ==> AnswerTo(h, state, rs, i).Err?
  {
    CacheIsEarliest(h, state, rs[..j], rs[j].url);
    forall i: nat | i < j ensures AnswerTo(h, state, rs[..j], i) == AnswerTo(h, state, rs, i) {
      assert rs[..j][..i] == rs[..i];
    }
    var cache := After(h, state, rs[..j]).cache;
    if rs[j].url in cache {
      var i: nat :| i < j && rs[..j][i].url == rs[j].url && Earliest(h, state, rs[..j], i)
                    && AnswerTo(h, state, rs[..j], i) == Ok(cache[rs[j].url]);
      assert Earliest(h, state, rs, i);
    }
  }

  /** Every request is answered by the handler's answer to the earliest successful request for its URL, and
      by its own handler when there was none before it. */
  lemma EarliestAnswerServed<S, X, T>(h: Handler<S, X, T>, state: S, rs: seq<Request<X>>, j: nat)
    requires j < |rs|
    ensures forall i: nat :: i < j && rs[i].url == rs[j].url && Earliest(h, state, rs, i) ==>
              AnswerTo(h, state, rs, j) == AnswerTo(h, state, rs, i)
    ensures (forall i: nat :: i < j && rs[i].url == rs[j].url ==> AnswerTo(h, state, rs, i).Err?) ==>
              AnswerTo(h, state, rs, j) == h(After(h, state, rs[..j]).state, rs[j]).1
    ensures forall i: nat :: i < |rs| && Earliest(h, state, rs, i) ==>
              AnswerTo(h, state, rs, i) == h(After(h, state, rs[..i]).state, rs[i]).1
  {
    EarlierAnswers(h, state, rs, j);
    forall i: nat | i < |rs| && Earliest(h, state, rs, i)
      ensures AnswerTo(h, state, rs, i) == h(After(h, state, rs[..i]).state, rs[i]).1
    {
      EarlierAnswers(h, state, rs, i);
    }
  }

  // ---------------------------------------------------------------- what reaches the handlers

  /** The requests the cache could not answer. */
  function Missed<S, X, T>(h: Handler<S, X, T>, state: S, rs: seq<Request<X>>): seq<Request<X>> {
    if rs == [] then []
    else
      var init, r := rs[..|rs| - 1], rs[|rs| - 1];
      Missed(h, state, init) + if r.url in After(h, state, init).cache then [] else [r]
  }

  /** The application ends as if only the missed requests had been made, with no cache at all. */
  lemma {:induction false} HandlersSeeMisses<S, X, T>(h: Handler<S, X, T>, state: S, rs: seq<Request<X>>)
    ensures After(h, state, rs).state == Bare(h, state, Missed(h, state, rs))
  {
    if rs != [] {
      var init, r := rs[..|rs| - 1], rs[|rs| - 1];
      HandlersSeeMisses(h, state, init);
      var reached := Missed(h, state, init);
      if r.url in After(h, state, init).cache {
        assert Missed(h, state, rs) == reached;
      } else {
        assert (reached + [r])[..|reached|] == reached;
      }
    }
  }

  // ---------------------------------------------------------------- when the cache cannot be noticed

  /** Without the cache, a URL that has answered with success gives that same answer ever after. */
  ghost predicate Constant<S, X, T>(h: Handler<S, X, T>, state: S, rs: seq<Request<X>>) {
    forall j: nat, k: nat :: j < k < |rs| && rs[j].url == rs[k].url && BareAnswerTo(h, state, rs, j).Ok? ==>
      BareAnswerTo(h, state, rs, k) == BareAnswerTo(h, state, rs, j)
  }

  /** Without the cache, a request whose URL has already succeeded leaves the application's state as it is. */
  ghost predicate Idle<S, X, T>(h: Handler<S, X, T>, state: S, rs: seq<Request<X>>) {
    forall j: nat, k: nat :: j < k < |rs| && rs[j].url == rs[k].url && BareAnswerTo(h, state, rs, j).Ok? ==>
      h(Bare(h, state, rs[..k]), rs[k]).0 == Bare(h, state, rs[..k])
  }

  /** Every caller is told what it would have been told without the cache. */
  ghost predicate SameAnswers<S, X, T>(h: Handler<S, X, T>, state: S, rs: seq<Request<X>>) {
    forall j: nat :: j < |rs| ==> AnswerTo(h, state, rs, j) == BareAnswerTo(h, state, rs, j)
  }

  /** And the application is at every moment where it would have been. */
  ghost predicate SameStates<S, X, T>(h: Handler<S, X, T>, state: S, rs: seq<Request<X>>) {
    forall k: nat :: k <= |rs| ==> After(h, state, rs[..k]).state == Bare(h, state, rs[..k])
  }

  /** Two successes for one URL are one answer, and the second never reaches its handler. */
  lemma SameAnswer<S, X, T>(h: Handler<S, X, T>, state: S, rs: seq<Request<X>>, j: nat, k: nat)
    requires j < k < |rs| && rs[j].url == rs[k].url && AnswerTo(h, state, rs, j).Ok?
    ensures AnswerTo(h, state, rs, k) == AnswerTo(h, state, rs, j)
    ensures After(h, state, rs[..k + 1]).state == After(h, state, rs[..k]).state
  {
    EarlierAnswers(h, state, rs, j);
    EarlierAnswers(h, state, rs, k);
    assert rs[..k + 1][..k] == rs[..k];
  }

  lemma BareStep<S, X, T>(h: Handler<S, X, T>, state: S, rs: seq<Request<X>>, k: nat)
    requires k < |rs|
    ensures Bare(h, state, rs[..k + 1]) == h(Bare(h, state, rs[..k]), rs[k]).0
  {
    assert rs[..k + 1][..k] == rs[..k];
  }

  lemma CachedStep<S, X, T>(h: Handler<S, X, T>, state: S, rs: seq<Request<X>>, k: nat)
    requires k < |rs|
    ensures After(h, state, rs[..k + 1]) == Serve(h, After(h, state, rs[..k]), rs[k]).0
  {
    assert rs[..k + 1][..k] == rs[..k];
  }

  /** One request further, as long as nothing has been noticed so far. */
  lemma StaysUnnoticed<S, X, T>(h: Handler<S, X, T>, state: S, rs: seq<Request<X>>, k: nat)
    requires k < |rs| && Constant(h, state, rs) && Idle(h, state, rs)
    requires After(h, state, rs[..k]).state == Bare(h, state, rs[..k])
    requires forall j: nat :: j < k ==> AnswerTo(h, state, rs, j) == BareAnswerTo(h, state, rs, j)
    ensures AnswerTo(h, state, rs, k) == BareAnswerTo(h, state, rs, k)
    ensures After(h, state, rs[..k + 1]).state == Bare(h, state, rs[..k + 1])
  {
    hide After, Bare;
    EarlierAnswers(h, state, rs, k);
    BareStep(h, state, rs, k);
    CachedStep(h, state, rs, k);
  }

  lemma {:induction false} Unnoticed<S, X, T>(h: Handler<S, X, T>, state: S, rs: seq<Request<X>>, n: nat)
    requires n <= |rs| && Constant(h, state, rs) && Idle(h, state, rs)
    ensures forall j: nat :: j < n ==> AnswerTo(h, state, rs, j) == BareAnswerTo(h, state, rs, j)
    ensures forall k: nat :: k <= n ==> After(h, state, rs[..k]).state == Bare(h, state, rs[..k])
  {
    hide AnswerTo, BareAnswerTo, Constant, Idle;
    if n > 0 {
      Unnoticed(h, state, rs, n - 1);
      StaysUnnoticed(h, state, rs, n - 1);
    }
  }

  lemma AgreementIsConstant<S, X, T>(h: Handler<S, X, T>, state: S, rs: seq<Request<X>>)
    requires SameAnswers(h, state, rs)
    ensures Constant(h, state, rs)
  {
    hide AnswerTo, BareAnswerTo;
    forall j: nat, k: nat | j < k < |rs| && rs[j].url == rs[k].url && BareAnswerTo(h, state, rs, j).Ok?
      ensures BareAnswerTo(h, state, rs, k) == BareAnswerTo(h, state, rs, j)
    {
      SameAnswer(h, state, rs, j, k);
    }
  }

  lemma AgreementIsIdle<S, X, T>(h: Handler<S, X, T>, state: S, rs: seq<Request<X>>)
    requires SameAnswers(h, state, rs) && SameStates(h, state, rs)
    ensures Idle(h, state, rs)
  {
    hide AnswerTo, BareAnswerTo, After, Bare;
    forall j: nat, k: nat | j < k < |rs| && rs[j].url == rs[k].url && BareAnswerTo(h, state, rs, j).Ok?
      ensures h(Bare(h, state, rs[..k]), rs[k]).0 == Bare(h, state, rs[..k])
    {
      SameAnswer(h, state, rs, j, k);
      BareStep(h, state, rs, k);
    }
  }

  /** For every handler and every run, writes included: the cache cannot be noticed, in any answer or in the
      state the application goes through, exactly when a URL that has succeeded neither changes its answer
      nor does anything when it is asked again. */
  lemma UnnoticedIffIdle<S, X, T>(h: Handler<S, X, T>, state: S, rs: seq<Request<X>>)
    ensures SameAnswers(h, state, rs) && SameStates(h, state, rs) <==> Constant(h, state, rs) && Idle(h, state, rs)
  {
    hide Constant, Idle, AnswerTo, BareAnswerTo, After, Bare;
    if SameAnswers(h, state, rs) && SameStates(h, state, rs) {
      AgreementIsConstant(h, state, rs);
      AgreementIsIdle(h, state, rs);
    }
    if Constant(h, state, rs) && Idle(h, state, rs) { Unnoticed(h, state, rs, |rs|); }
  }

  /** The answers alone: agreement always means that no URL changes its answer after succeeding, and the two
      are equivalent whenever asking such a URL again has no effect, whatever other requests write. */
  lemma UnnoticedIffConstant<S, X, T>(h: Handler<S, X, T>, state: S, rs: seq<Request<X>>)
    ensures SameAnswers(h, state, rs) ==> Constant(h, state, rs)
    ensures Idle(h, state, rs) ==> (SameAnswers(h, state, rs) <==> Constant(h, state, rs))
  {
    hide Constant, Idle, AnswerTo, BareAnswerTo;
    if SameAnswers(h, state, rs) { AgreementIsConstant(h, state, rs); }
    if Constant(h, state, rs) && Idle(h, state, rs) { Unnoticed(h, state, rs, |rs|); }
  }
}
