/** What the step checks at construction and what it hands to `session.request`. */
module Request {
  import opened Wrappers
  import opened PyValues
  import opened ParamsOrder

  /** The methods `__init__` accepts. */
  const KnownMethods: seq<string> := ["POST", "GET", "PUT", "DELETE", "HEAD", "OPTIONS"]

  predicate IsKnownMethod(m: string)
  {
    m in KnownMethods
  }

  /** The message of the configuration error for an unknown method. */
  function WrongMethodMessage(m: string): string
  {
    "Wrong method given: '" + m + "' is not known"
  }

  /** The `TypeError` Python raises when a per-verb subclass forwards `method=` next to a
      caller's own `method` keyword argument. */
  const DuplicateMethodMessage: string := "__init__() got multiple values for keyword argument 'method'"

  /** The per-verb subclasses POST, GET, PUT, DELETE, HEAD and OPTIONS. */
  datatype Verb = POST | GET | PUT | DELETE | HEAD | OPTIONS

  function VerbName(v: Verb): string
  {
    match v
    case POST => "POST"
    case GET => "GET"
    case PUT => "PUT"
    case DELETE => "DELETE"
    case HEAD => "HEAD"
    case OPTIONS => "OPTIONS"
  }

  /** The method check accepts exactly the names of the six per-verb subclasses. */
  lemma KnownMethodIffVerb(m: string)
    ensures IsKnownMethod(m) <==> exists v :: VerbName(v) == m
  {
    if IsKnownMethod(m) {
      if m == "POST" { assert VerbName(POST) == m; }
      else if m == "GET" { assert VerbName(GET) == m; }
      else if m == "PUT" { assert VerbName(PUT) == m; }
      else if m == "DELETE" { assert VerbName(DELETE) == m; }
      else if m == "HEAD" { assert VerbName(HEAD) == m; }
      else { assert VerbName(OPTIONS) == m; }
    }
  }

  /** `requestsParams`: the option names forwarded to `session.request`. */
  const RequestsParams: seq<string> :=
    ["params", "data", "json", "headers", "cookies", "files", "auth",
     "timeout", "allow_redirects", "proxies", "hooks", "stream", "verify", "cert"]

  lemma RequestsParamsDistinct()
    ensures forall i, j :: 0 <= i < j < |RequestsParams| ==> RequestsParams[i] != RequestsParams[j]
  {
  }

  /** `getattr(obj, name, None)` / `kwargs.get(name, None)` over a dictionary of options. */
  function Attr(attrs: map<string, PyValue>, name: string): PyValue
  {
    if name in attrs then attrs[name] else NoneValue
  }

  /** A value of the `requestkwargs` dict: the method or URL string, an option passed on
      unchanged, or the sorted list of params items that replaces the params dict. */
  datatype Arg = Str(s: string) | Value(v: PyValue) | SortedItems(items: seq<Pair>)

  /** What `requestkwargs` holds after the loop over `requestsParams`: `method` and `url`,
      and exactly the whitelisted options whose value is not `None`, unchanged. */
  ghost predicate KwargsFor(kw: map<string, Arg>, httpMethod: string, url: string, attrs: map<string, PyValue>)
  {
    && "method" in kw && kw["method"] == Str(httpMethod)
    && "url" in kw && kw["url"] == Str(url)
    && (forall k :: k in kw ==> k == "method" || k == "url" || k in RequestsParams)
    && (forall p :: p in RequestsParams ==> (p in kw <==> Attr(attrs, p) != NoneValue))
    && (forall p :: p in RequestsParams && p in kw ==> kw[p] == Value(Attr(attrs, p)))
  }

  function RequestArgs(httpMethod: string, url: string, attrs: map<string, PyValue>): map<string, Arg>
  {
    map["method" := Str(httpMethod), "url" := Str(url)] + SetOptions(RequestsParams, attrs)
  }

  /** RequestArgs meets the description ... */
  lemma RequestArgsAreKwargs(httpMethod: string, url: string, attrs: map<string, PyValue>)
    ensures KwargsFor(RequestArgs(httpMethod, url, attrs), httpMethod, url, attrs)
  {
    assert "method" !in RequestsParams && "url" !in RequestsParams;
  }

  /** ... and it is the only dict that does. */
  lemma KwargsAreRequestArgs(kw: map<string, Arg>, httpMethod: string, url: string, attrs: map<string, PyValue>)
    requires KwargsFor(kw, httpMethod, url, attrs)
    ensures kw == RequestArgs(httpMethod, url, attrs)
  {
    var r := RequestArgs(httpMethod, url, attrs);
    assert "method" !in RequestsParams && "url" !in RequestsParams;
    assert kw.Keys == r.Keys;
  }

  /** The options among `names` that are set, unchanged. */
  function SetOptions(names: seq<string>, attrs: map<string, PyValue>): map<string, Arg>
  {
    map p | p in names && Attr(attrs, p) != NoneValue :: Value(Attr(attrs, p))
  }

  lemma SetOptionsSnoc(names: seq<string>, p: string, attrs: map<string, PyValue>)
    ensures SetOptions(names + [p], attrs)
         == if Attr(attrs, p) != NoneValue then SetOptions(names, attrs)[p := Value(Attr(attrs, p))]
            else SetOptions(names, attrs)
  {
  }

  lemma UpdateUnion<K, V>(m: map<K, V>, s: map<K, V>, k: K, v: V)
    ensures (m + s)[k := v] == m + s[k := v]
  {
  }

  /** The loop of `run` that builds `requestkwargs`. */
  method AssembleRequestKwargs(httpMethod: string, url: string, attrs: map<string, PyValue>)
    returns (kw: map<string, Arg>)
    ensures kw == RequestArgs(httpMethod, url, attrs)
  {
    kw := map["method" := Str(httpMethod), "url" := Str(url)];
    assert SetOptions(RequestsParams[..0], attrs) == map[];
    for i := 0 to |RequestsParams|
      invariant kw == map["method" := Str(httpMethod), "url" := Str(url)] + SetOptions(RequestsParams[..i], attrs)
    {
      var param := RequestsParams[i];
      var value := Attr(attrs, param);
      assert RequestsParams[..i + 1] == RequestsParams[..i] + [param];
      SetOptionsSnoc(RequestsParams[..i], param, attrs);
      if value != NoneValue {
        UpdateUnion(map["method" := Str(httpMethod), "url" := Str(url)], SetOptions(RequestsParams[..i], attrs),
          param, Value(value));
        kw := kw[param := Value(value)];
      }
    }
    assert RequestsParams[..|RequestsParams|] == RequestsParams;
  }

  /** A params option that is truthy but not a dict, standing for a value with no `items`
      method: `params.items()` raises AttributeError. */
  predicate ParamsRaise(params: PyValue)
  {
    Truthy(params) && !params.Dict?
  }

  /** What `run` passes to `session.request`, or None when it raises before the call. */
  function SentArgs(httpMethod: string, url: string, attrs: map<string, PyValue>): (r: Option<map<string, Arg>>)
    ensures r.None? <==> ParamsRaise(Attr(attrs, "params"))
    ensures r.Some? ==> "method" in r.value && r.value["method"] == Str(httpMethod)
    ensures r.Some? ==> "url" in r.value && r.value["url"] == Str(url)
  {
    var params := Attr(attrs, "params");
    if ParamsRaise(params) then None
    else if Truthy(params) then
      Some(RequestArgs(httpMethod, url, attrs)["params" := SortedItems(SortByKey(params.entries))])
    else Some(RequestArgs(httpMethod, url, attrs))
  }

  /** The request always carries `method` and `url` and exactly the non-None whitelisted
      options, unchanged except that a non-empty params dict is sent as its items sorted by
      key: the same items, keys non-decreasing. */
  lemma SentArgsContents(httpMethod: string, url: string, attrs: map<string, PyValue>)
    ensures SentArgs(httpMethod, url, attrs).None? <==> ParamsRaise(Attr(attrs, "params"))
    ensures SentArgs(httpMethod, url, attrs).Some? ==>
      var kw := SentArgs(httpMethod, url, attrs).value;
      && "method" in kw && kw["method"] == Str(httpMethod)
      && "url" in kw && kw["url"] == Str(url)
      && (forall k :: k in kw ==> k == "method" || k == "url" || k in RequestsParams)
      && (forall p :: p in RequestsParams ==> (p in kw <==> Attr(attrs, p) != NoneValue))
      && (forall p :: p in RequestsParams && p in kw && p != "params" ==> kw[p] == Value(Attr(attrs, p)))
      && ("params" in kw ==>
            var params := Attr(attrs, "params");
            if Truthy(params) then
              && params.Dict? && kw["params"].SortedItems?
              && multiset(kw["params"].items) == multiset(params.entries)
              && SortedByKey(kw["params"].items)
            else kw["params"] == Value(params))
  {
    var params := Attr(attrs, "params");
    var r := RequestArgs(httpMethod, url, attrs);
    RequestArgsAreKwargs(httpMethod, url, attrs);
    if !ParamsRaise(params) && Truthy(params) {
      SortByKeyCorrect(params.entries);
      var kw := r["params" := SortedItems(SortByKey(params.entries))];
      assert "params" in RequestsParams && "params" in r;
      assert kw.Keys == r.Keys;
      assert SentArgs(httpMethod, url, attrs) == Some(kw);
    }
  }
}
