/**
  The query-string gate of the form: the eleven parameter names the page
  insists on, the list of those absent from the URL, and the error text the
  mount effect derives from that list.
 */
module QueryParams {
  import opened Wrappers
  import opened Strings

  /** The page's URL search parameters, taken once at mount: each key present
      in the query string, with the value `URLSearchParams.get` returns for
      it (the first one). Values are never inspected by the gate. */
  type Query = map<string, string>

  /** `params.get(key)`: `None` stands for JavaScript's `null`. */
  function Get(q: Query, key: string): (r: Option<string>)
    ensures r.Some? <==> key in q
    ensures r.Some? ==> r.value == q[key]
  {
    if key in q then Some(q[key]) else None
  }

  /** The fixed, ordered list of names that must all be present. */
  const RequiredParams: seq<string> := [
    "nonce", "state", "client_id", "redirect_uri", "scope", "response_type",
    "acr_values", "claims", "claims_locales", "display", "ui_locales"
  ]

  const MissingPrefix: string := "Missing URL parameter(s): "
  const NameSeparator: string := ", "

  predicate NoDuplicates<T(==)>(xs: seq<T>)
  {
    forall i, j :: 0 <= i < j < |xs| ==> xs[i] != xs[j]
  }

  /** `r` can be obtained from `xs` by deleting elements, keeping the order
      of those that remain. */
  predicate IsSubsequence<T(==)>(r: seq<T>, xs: seq<T>)
    decreases |xs|
  {
    if |r| == 0 then true
    else if |xs| == 0 then false
    else if r[0] == xs[0] then IsSubsequence(r[1..], xs[1..])
    else IsSubsequence(r, xs[1..])
  }

  /** `names.filter((param) => !keys.has(param))`: exactly the names that are
      not keys, in the order they appear in `names` (how often each is kept
      is `MissingCounts`). */
  function Missing(names: seq<string>, keys: set<string>): (r: seq<string>)
    ensures forall x :: x in r <==> x in names && x !in keys
    ensures IsSubsequence(r, names)
    ensures NoDuplicates(names) ==> NoDuplicates(r)
    decreases |names|
  {
    if |names| == 0 then []
    else
      var rest := Missing(names[1..], keys);
      if names[0] in keys then rest
      else
        assert NoDuplicates(names) ==> names[0] !in names[1..];
        [names[0]] + rest
  }

  /** The filter keeps every name that is not a key as many times as it
      occurs, and no name that is. */
  lemma {:induction false} MissingCounts(names: seq<string>, keys: set<string>)
    ensures forall x :: multiset(Missing(names, keys))[x]
                        == if x in keys then 0 else multiset(names)[x]
    decreases |names|
  {
    if |names| > 0 {
      MissingCounts(names[1..], keys);
      assert names == [names[0]] + names[1..];
    }
  }

  lemma RequiredParamsDistinct()
    ensures NoDuplicates(RequiredParams)
  {
  }

  /** `validateQueryParams`: the required names absent from the query, in
      the required order and without repetition. */
  function ValidateQueryParams(q: Query): (r: seq<string>)
    ensures forall x :: x in r <==> x in RequiredParams && x !in q
    ensures IsSubsequence(r, RequiredParams)
    ensures NoDuplicates(r)
  {
    // `+ []` hides the literal list from the solver, which would otherwise
    // unfold the filter over all eleven names at every use.
    assert RequiredParams + [] == RequiredParams;
    RequiredParamsDistinct();
    Missing(RequiredParams + [], q.Keys)
  }

  /** No required name contains the first character of the separator, so
      a joined list of them can be read back. */
  lemma RequiredNamesCommaFree()
    ensures forall x :: x in RequiredParams ==> NameSeparator[0] !in x
  {
  }

  /** The value the mount effect gives `urlError`: `None` (it stays `null`)
      exactly when every required name is present; otherwise a text that
      starts with the fixed prefix (what follows is `UrlErrorListsMissing`). */
  function MountUrlError(q: Query): (r: Option<string>)
    ensures r.None? <==> forall x :: x in RequiredParams ==> x in q
    ensures r.Some? ==>
      |MissingPrefix| <= |r.value| && r.value[..|MissingPrefix|] == MissingPrefix
  {
    var missing := ValidateQueryParams(q);
    NoneMissingIff(q);
    if |missing| > 0 then Some(MissingPrefix + Join(missing, NameSeparator)) else None
  }

  /** The error text names exactly the missing parameters, in order: it is
      the prefix followed by the `", "`-joined list `validateQueryParams`
      returned, and splitting the text after the prefix at `", "` gives that
      list back, so the text and the list determine each other. */
  lemma UrlErrorListsMissing(q: Query)
    requires exists x :: x in RequiredParams && x !in q
    ensures MountUrlError(q).Some?
    ensures MountUrlError(q).value == MissingPrefix + Join(ValidateQueryParams(q), NameSeparator)
    ensures SplitOn(MountUrlError(q).value[|MissingPrefix|..], NameSeparator)
            == ValidateQueryParams(q)
  {
    var text := MountUrlError(q).value;
    MissingListReadsBack(ValidateQueryParams(q));
    JoinSplit(text[|MissingPrefix|..], NameSeparator);
    assert text == MissingPrefix + text[|MissingPrefix|..];
  }

  lemma NoneMissingIff(q: Query)
    ensures |ValidateQueryParams(q)| == 0 <==> forall x :: x in RequiredParams ==> x in q
  {
    var missing := ValidateQueryParams(q);
    if |missing| > 0 {
      assert missing[0] in missing;
    }
  }

  lemma MissingListReadsBack(missing: seq<string>)
    requires |missing| > 0
    requires forall x :: x in missing ==> x in RequiredParams
    ensures var text := MissingPrefix + Join(missing, NameSeparator);
      SplitOn(text[|MissingPrefix|..], NameSeparator) == missing
  {
    var joined := Join(missing, NameSeparator);
    assert (MissingPrefix + joined)[|MissingPrefix|..] == joined;
    assert forall k :: 0 <= k < |missing| ==> NameSeparator[0] !in missing[k] by {
      RequiredNamesCommaFree();
      forall k | 0 <= k < |missing|
        ensures NameSeparator[0] !in missing[k]
      {
        assert missing[k] in missing;
      }
    }
    SplitJoin(missing, NameSeparator);
  }

  /** A query that lacks only `scope` names `scope` and nothing else. */
  lemma OnlyScopeMissing(q: Query)
    requires forall x :: x in RequiredParams && x != "scope" ==> x in q
    requires "scope" !in q
    ensures ValidateQueryParams(q) == ["scope"]
  {
    var r := ValidateQueryParams(q);
    assert "scope" in r;
    assert forall x :: x in r ==> x == "scope";
    OnlyElement(r, "scope");
  }

  lemma OnlyElement<T>(r: seq<T>, v: T)
    requires NoDuplicates(r) && v in r
    requires forall x :: x in r ==> x == v
    ensures r == [v]
  {
    assert r[0] in r;
    if |r| > 1 {
      ElementIn(r, 1);
      assert false;
    }
  }

  lemma ElementIn<T>(r: seq<T>, i: nat)
    requires i < |r|
    ensures r[i] in r
  {
  }

  lemma ScopeErrorText(q: Query)
    requires ValidateQueryParams(q) == ["scope"]
    ensures MountUrlError(q) == Some(MissingPrefix + "scope")
  {
    assert Join(["scope"], NameSeparator) == "scope";
  }
}
