/**
 * What `runRequest`'s completion handler in lib/main.js makes of one
 * provider's reply: the provider's type, the capped `{title, url}` list built
 * from an OpenSearch suggestions response `[term, [completion, ...]]`
 * (content type application/x-suggestions+json), and the Yelp passthrough.
 */
module Suggestions {
  import opened Wrappers

  const WikipediaHost := "http://en.wikipedia.org/"
  const WikipediaBase := "http://en.wikipedia.org/wiki/"
  const YelpHost := "http://www.yelp.com/"
  /** The most results kept from one provider's reply. */
  const MaxResults := 3

  /** `suggest`: completions only; `match`: each completion names a page. */
  datatype Kind = Suggest | Match
  datatype Provider = Provider(kind: Kind, baseurl: string)

  /** The provider type `runRequest` picks from the engine's host. */
  function ProviderFor(host: string): (p: Provider)
    ensures p.kind == Match <==> host == WikipediaHost
    ensures p.kind == Match ==> p.baseurl == WikipediaBase
    ensures p.kind == Suggest ==> p.baseurl == ""
  {
    if host == WikipediaHost then Provider(Match, WikipediaBase) else Provider(Suggest, "")
  }

  /** One `{title, url}` result. */
  datatype Suggestion = Suggestion(title: string, url: string)

  /** The result for one completion: a URL only for a `match` provider. */
  function Entry(p: Provider, item: string): (r: Suggestion)
    ensures r.title == item
    ensures r.url != "" ==> p.kind == Match
  {
    Suggestion(item, if p.kind == Match then p.baseurl + item else "")
  }

  /**
   * The results the `forEach` builds, completion by completion: once three
   * are kept every later completion is skipped, and a completion equal to
   * the typed terms is never kept.
   */
  function Normalise(terms: string, items: seq<string>, p: Provider): (r: seq<Suggestion>)
    ensures |r| <= |items|
  {
    if items == [] then []
    else
      var before := Normalise(terms, items[..|items| - 1], p);
      var item := items[|items| - 1];
      if |before| >= MaxResults || item == terms then before else before + [Entry(p, item)]
  }

  /** The completions other than the terms themselves, in order. */
  function WithoutTerm(items: seq<string>, terms: string): seq<string> {
    if items == [] then []
    else (if items[0] == terms then [] else [items[0]]) + WithoutTerm(items[1..], terms)
  }

  /** The first `n` elements (all of them when there are fewer). */
  function Cap(s: seq<string>, n: nat): seq<string> {
    if |s| <= n then s else s[..n]
  }

  function Titles(rs: seq<Suggestion>): seq<string> {
    seq(|rs|, k requires 0 <= k < |rs| => rs[k].title)
  }

  lemma {:induction false} WithoutTermSnoc(items: seq<string>, item: string, terms: string)
    ensures WithoutTerm(items + [item], terms) == WithoutTerm(items, terms) + (if item == terms then [] else [item])
  {
    if items != [] {
      assert (items + [item])[1..] == items[1..] + [item];
      WithoutTermSnoc(items[1..], item, terms);
    }
  }

  /**
   * The results are the first three completions that differ from the terms,
   * in the provider's order, each with the URL its provider type gives.
   */
  lemma {:induction false} NormaliseIsCappedFilter(terms: string, items: seq<string>, p: Provider)
    ensures Titles(Normalise(terms, items, p)) == Cap(WithoutTerm(items, terms), MaxResults)
    ensures forall k :: 0 <= k < |Normalise(terms, items, p)| ==>
              Normalise(terms, items, p)[k] == Entry(p, Normalise(terms, items, p)[k].title)
  {
    NormaliseTitles(terms, items, p);
    NormaliseEntries(terms, items, p);
  }

  /** Every result is the entry its provider makes for its title. */
  lemma {:induction false} NormaliseEntries(terms: string, items: seq<string>, p: Provider)
    ensures forall k :: 0 <= k < |Normalise(terms, items, p)| ==>
              Normalise(terms, items, p)[k] == Entry(p, Normalise(terms, items, p)[k].title)
  {
    if items != [] {
      NormaliseEntries(terms, items[..|items| - 1], p);
    }
  }

  lemma {:induction false} NormaliseTitles(terms: string, items: seq<string>, p: Provider)
    ensures Titles(Normalise(terms, items, p)) == Cap(WithoutTerm(items, terms), MaxResults)
  {
    if items != [] {
      var init := items[..|items| - 1];
      var item := items[|items| - 1];
      assert items == init + [item];
      NormaliseTitles(terms, init, p);
      WithoutTermSnoc(init, item, terms);
      var kept := WithoutTerm(init, terms);
      var before := Normalise(terms, init, p);
      if |before| < MaxResults && item != terms {
        assert Titles(before + [Entry(p, item)]) == Titles(before) + [item];
      } else if item != terms {
        assert Cap(kept + [item], MaxResults) == Cap(kept, MaxResults);
      }
    }
  }

  /**
   * At most three results; none repeats the terms; each title is one of the
   * completions; a `match` provider links `baseurl + title`, a `suggest`
   * provider links nothing.
   */
  lemma NormaliseBounds(terms: string, items: seq<string>, p: Provider)
    ensures |Normalise(terms, items, p)| <= MaxResults
    ensures forall r :: r in Normalise(terms, items, p) ==> r.title != terms && r.title in items
    ensures forall r :: r in Normalise(terms, items, p) ==>
              r.url == if p.kind == Match then p.baseurl + r.title else ""
  {
    NormaliseIsCappedFilter(terms, items, p);
    var rs := Normalise(terms, items, p);
    forall r | r in rs ensures r.title != terms && r.title in items {
      var k :| 0 <= k < |rs| && rs[k] == r;
      assert Titles(rs)[k] == r.title;
      WithoutTermMembers(items, terms);
    }
  }

  lemma {:induction false} WithoutTermMembers(items: seq<string>, terms: string)
    ensures forall x :: x in WithoutTerm(items, terms) <==> x in items && x != terms
  {
    if items != [] {
      WithoutTermMembers(items[1..], terms);
      assert items == [items[0]] + items[1..];
    }
  }

  /** The completion handler's worked example: the exact match is dropped, three results remain. */
  lemma JsonExample()
    ensures Normalise("json", ["jsonline", "json", "json validator", "jsonp"], ProviderFor("http://www.google.com/"))
         == [Suggestion("jsonline", ""), Suggestion("json validator", ""), Suggestion("jsonp", "")]
  {
    var items := ["jsonline", "json", "json validator", "jsonp"];
    var p := ProviderFor("http://www.google.com/");
    assert "http://www.google.com/"[11] != WikipediaHost[11];
    assert p == Provider(Suggest, "");
    assert items[..3][..2][..1][..0] == [];
    assert Normalise("json", items[..3][..2][..1], p) == [Suggestion("jsonline", "")];
    assert Normalise("json", items[..3][..2], p) == [Suggestion("jsonline", "")];
    assert Normalise("json", items[..3], p) == [Suggestion("jsonline", ""), Suggestion("json validator", "")];
  }

  /** Wikipedia is the one `match` provider: its results link to the article of the same name. */
  lemma WikipediaExample()
    ensures Normalise("js", ["Json"], ProviderFor(WikipediaHost))
         == [Suggestion("Json", "http://en.wikipedia.org/wiki/Json")]
  {
    var p := ProviderFor(WikipediaHost);
    assert p == Provider(Match, WikipediaBase);
    assert ["Json"][..0] == [];
    assert Normalise("js", ["Json"], p) == [Entry(p, "Json")];
    assert WikipediaBase + "Json" == "http://en.wikipedia.org/wiki/Json";
  }

  /**
   * The `forEach` loop of the completion handler: push the completion
   * unless three results are already kept or it equals the terms.
   */
  method BuildResults(terms: string, items: seq<string>, p: Provider) returns (results: seq<Suggestion>)
    ensures results == Normalise(terms, items, p)
  {
    results := [];
    for i := 0 to |items|
      invariant results == Normalise(terms, items[..i], p)
    {
      assert items[..i + 1][..i] == items[..i];
      if |results| >= MaxResults {
        continue;
      }
      if terms != items[i] {
        results := results + [Entry(p, items[i])];
      }
    }
    assert items[..|items|] == items;
  }

  /** The reply text after `JSON.parse`, in the shapes the handler tells apart. */
  datatype Decoded =
    | Unparsable                                          // JSON.parse threw
    | JsonNull                                            // the text was `null`
    | SuggestionArray(term: string, completions: seq<string>)  // [term, [completion, ...]]
    | JsonObject(body: Option<string>)                    // an object; `body` is its string "body" member
    | OtherJson                                           // a number, string, boolean or other array

  /** `JSON.parse(text)["body"]`, for a reply that parsed to something other than `null`. */
  function BodyOf(reply: Decoded): (r: Option<string>)
    ensures r.Some? <==> reply.JsonObject? && reply.body.Some?
    ensures r.Some? ==> r == reply.body
  {
    if reply.JsonObject? then reply.body else None
  }

  /** A request `runRequest` issued: the terms it was issued for, the engine's host and the URL. */
  datatype Request = Request(terms: string, host: string, url: string)

  /** What is sent to the results panel: an `add` batch, or Yelp's raw body. */
  datatype Emission =
    | Results(name: string, results: seq<Suggestion>, kind: Kind, terms: string)
    | YelpBody(terms: string, name: string, body: Option<string>, kind: Kind)
}
