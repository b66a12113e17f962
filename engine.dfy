/**
 * The `SearchEngine` record of lib/browser-search-engine.js: an engine's
 * identity (its host), its URL templates, and the ordered tag list that the
 * preferences page edits through `appendTag` and `removeTag`.
 */
module Engine {
  import opened Wrappers
  import opened UrlTemplate

  /** The tag of the engines shown in the search panel. */
  const DefaultTag := "_default"
  /** The tag given to engines the browser reports as added or changed. */
  const FoundTag := "_found"

  /**
   * What `_systemEngineInit` reads off an engine of the browser's search
   * service: its search form (already reduced to the site and host), its two
   * URL templates with the placeholders left in, and its `hidden` flag.
   */
  datatype SystemEngine = SystemEngine(
    site: string,
    host: string,
    name: string,
    queryURL: string,
    suggestionURL: string,
    icon: string,
    hidden: bool)

  /** The record `toJSON` produces, the shape in which engines are persisted. */
  datatype EngineJson = EngineJson(
    name: string,
    site: string,
    host: string,
    tags: seq<string>,
    queryURL: string,
    suggestionURL: string,
    icon: string)

  /** `Array.prototype.indexOf`: the first index of `x` in `s`, or -1. */
  function IndexOf(s: seq<string>, x: string): (r: int)
    ensures -1 <= r < |s|
    ensures r == -1 <==> x !in s
    ensures r >= 0 ==> s[r] == x && x !in s[..r]
  {
    if |s| == 0 then -1
    else if s[0] == x then 0
    else
      var k := IndexOf(s[1..], x);
      if k == -1 then -1
      else
        assert s[..k + 1] == [s[0]] + s[1..][..k];
        k + 1
  }

  /**
   * `Array.prototype.splice(start, 1)`: a negative start counts from the end
   * (and is clamped at 0), a start past the end removes nothing.
   */
  function SpliceOne(s: seq<string>, start: int): (r: seq<string>)
    ensures |r| == if s == [] || start >= |s| then |s| else |s| - 1
    ensures forall x :: x in r ==> x in s
    ensures 0 <= start < |s| ==> r == s[..start] + s[start + 1..]
  {
    var at :=
      if start < 0 then (if |s| + start < 0 then 0 else |s| + start)
      else if start > |s| then |s| else start;
    if at < |s| then s[..at] + s[at + 1..] else s
  }

  /** The tag list after `removeTag(tag)`, i.e. `tags.splice(tags.indexOf(tag), 1)`. */
  function WithoutTag(tags: seq<string>, tag: string): (r: seq<string>)
    ensures tags != [] ==> |r| == |tags| - 1
    ensures forall x :: x in r ==> x in tags
  {
    SpliceOne(tags, IndexOf(tags, tag))
  }

  /** Removing a tag the engine carries deletes its first occurrence and keeps the rest in order. */
  lemma RemovePresentTag(tags: seq<string>, tag: string)
    requires tag in tags
    ensures exists k :: 0 <= k < |tags| && tags[k] == tag && tag !in tags[..k] &&
                        WithoutTag(tags, tag) == tags[..k] + tags[k + 1..]
    ensures multiset(WithoutTag(tags, tag)) == multiset(tags) - multiset{tag}
  {
    var k := IndexOf(tags, tag);
    assert tags == tags[..k] + [tag] + tags[k + 1..];
    calc {
      multiset(tags);
      multiset(tags[..k]) + multiset{tag} + multiset(tags[k + 1..]);
      multiset(tags[..k] + tags[k + 1..]) + multiset{tag};
    }
  }

  /**
   * Removing a tag the engine does not carry is `splice(-1, 1)`: it drops the
   * engine's LAST tag, whatever that tag is.
   */
  lemma RemoveAbsentTagDropsLast(tags: seq<string>, tag: string)
    requires tag !in tags
    ensures WithoutTag(tags, tag) == if tags == [] then [] else tags[..|tags| - 1]
  {
    if tags != [] {
      assert IndexOf(tags, tag) == -1;
      assert tags[..|tags| - 1] + tags[|tags|..] == tags[..|tags| - 1];
    }
  }

  /** `removeTag` undoes an `appendTag` of a tag the engine did not carry. */
  lemma RemoveUndoesAppend(tags: seq<string>, tag: string)
    requires tag !in tags
    ensures WithoutTag(tags + [tag], tag) == tags
  {
    assert IndexOf(tags + [tag], tag) == |tags| by {
      assert (tags + [tag])[..|tags|] == tags;
    }
    assert (tags + [tag])[..|tags|] == tags;
  }

  /** `location || Geolocation.formatted_address`: the empty string stands for a missing location. */
  function Located(location: string, geoAddress: string): (r: string)
    ensures location != "" ==> r == location
    ensures location == "" ==> r == geoAddress
  {
    if location == "" then geoAddress else location
  }

  /**
   * `_getURL`: the first `{searchLocation}` becomes the encoded location, then
   * the first `{searchTerms}` becomes the encoded terms. `enc` stands for
   * `encodeURIComponent`.
   */
  function GetURL(url: string, terms: string, location: string, enc: string -> string): (r: string)
    ensures FindFirst(url, SearchLocation).None? && FindFirst(url, SearchTerms).None? ==> r == url
  {
    ReplaceFirst(ReplaceFirst(url, SearchLocation, enc(location)), SearchTerms, enc(terms))
  }

  /** The placeholders open with the only brace they hold, and differ at index 7. */
  lemma PlaceholderChars()
    ensures |SearchTerms| == 13 && |SearchLocation| == 16
    ensures SearchTerms[0] == '{' && SearchLocation[0] == '{'
    ensures forall k :: 1 <= k < |SearchTerms| ==> SearchTerms[k] != '{'
    ensures forall k :: 1 <= k < |SearchLocation| ==> SearchLocation[k] != '{'
    ensures SearchTerms[7] == 'T' && SearchLocation[7] == 'L'
  {
  }

  /** A `{searchTerms}` placeholder is never the start of a `{searchLocation}`. */
  lemma TermsIsNotLocation(s: string, j: nat)
    requires MatchesAt(s, SearchTerms, j)
    ensures !MatchesAt(s, SearchLocation, j)
  {
    PlaceholderChars();
    if j + |SearchLocation| <= |s| {
      assert s[j..j + |SearchTerms|][7] == s[j + 7] == s[j..j + |SearchLocation|][7];
    }
  }

  /** A template without placeholders (no `{` at all) comes back unchanged. */
  lemma GetURLWithoutPlaceholders(url: string, terms: string, location: string, enc: string -> string)
    requires '{' !in url
    ensures GetURL(url, terms, location, enc) == url
  {
    PlaceholderChars();
    NoMatchWithoutFirstChar(url, SearchLocation);
    NoMatchWithoutFirstChar(url, SearchTerms);
  }

  /** Before index |a| of `a + {searchTerms} + rest`, with no brace in `a`, nothing starts a placeholder. */
  lemma PlainPrefix(a: string, rest: string, pat: string)
    requires '{' !in a && |pat| > 0 && pat[0] == '{'
    ensures forall j | 0 <= j < |a| :: (a + SearchTerms + rest)[j] != pat[0]
  {
    forall j | 0 <= j < |a| ensures (a + SearchTerms + rest)[j] != pat[0] {
      assert (a + SearchTerms + rest)[j] == a[j];
    }
  }

  /** The first `{searchTerms}` after a brace-free prefix is the one replaced. */
  lemma ReplaceTermsAfter(a: string, rest: string, rep: string)
    requires '{' !in a
    ensures ReplaceFirst(a + SearchTerms + rest, SearchTerms, rep) == a + rep + rest
  {
    PlaceholderChars();
    var url := a + SearchTerms + rest;
    assert url[|a|..|a| + |SearchTerms|] == SearchTerms;
    PlainPrefix(a, rest, SearchTerms);
    FirstMatchAt(url, SearchTerms, |a|);
    assert url[..|a|] == a && url[|a| + |SearchTerms|..] == rest;
  }

  /**
   * In `a + {searchTerms} + b + rest`, with no brace in `a` or `b`, no
   * `{searchLocation}` starts before `rest`.
   */
  lemma NoLocationBefore(a: string, b: string, rest: string)
    requires '{' !in a && '{' !in b
    ensures forall j: nat | j < |a| + |SearchTerms| + |b| :: !MatchesAt(a + SearchTerms + b + rest, SearchLocation, j)
  {
    PlaceholderChars();
    var url := a + SearchTerms + b + rest;
    assert url[|a|..|a| + |SearchTerms|] == SearchTerms;
    forall j: nat | j < |a| + |SearchTerms| + |b| ensures !MatchesAt(url, SearchLocation, j) {
      if j == |a| {
        TermsIsNotLocation(url, j);
      } else if j + |SearchLocation| <= |url| {
        if j < |a| {
          assert url[j] == a[j];
        } else if j < |a| + |SearchTerms| {
          assert url[j] == SearchTerms[j - |a|];
        } else {
          assert url[j] == b[j - |a| - |SearchTerms|];
        }
        assert url[j..j + |SearchLocation|][0] == url[j];
      }
    }
  }

  /** The usual OpenSearch template: its one `{searchTerms}` becomes the encoded terms. */
  lemma GetURLSubstitutesTerms(a: string, b: string, terms: string, location: string, enc: string -> string)
    requires '{' !in a && '{' !in b
    ensures GetURL(a + SearchTerms + b, terms, location, enc) == a + enc(terms) + b
  {
    var url := a + SearchTerms + b;
    NoLocationBefore(a, b, "");
    assert url == a + SearchTerms + b + "";
    assert ReplaceFirst(url, SearchLocation, enc(location)) == url;
    ReplaceTermsAfter(a, b, enc(terms));
  }

  /** In `a + {searchTerms} + b + {searchLocation} + c`, the location placeholder after `b` is the one replaced. */
  lemma ReplaceLocationAfter(a: string, b: string, c: string, rep: string)
    requires '{' !in a && '{' !in b
    ensures ReplaceFirst(a + SearchTerms + b + SearchLocation + c, SearchLocation, rep)
         == a + SearchTerms + (b + rep + c)
  {
    var pre := a + SearchTerms + b;
    var url := pre + SearchLocation + c;
    assert MatchesAt(url, SearchLocation, |pre|) by {
      assert url[|pre|..|pre| + |SearchLocation|] == SearchLocation;
    }
    assert FindFirst(url, SearchLocation) == Some(|pre|) by {
      NoLocationBefore(a, b, SearchLocation + c);
      assert a + SearchTerms + b + (SearchLocation + c) == url;
      FirstMatchIs(url, SearchLocation, |pre|);
    }
    ReplaceAt(pre, SearchLocation, c, rep);
  }

  /**
   * A template with `{searchTerms}` and then `{searchLocation}` (the shape of
   * the Yelp query URL) gets both encoded values, each in its own place.
   */
  lemma GetURLSubstitutesBoth(a: string, b: string, c: string, terms: string, location: string, enc: string -> string)
    requires '{' !in a && '{' !in b && '{' !in c
    ensures GetURL(a + SearchTerms + b + SearchLocation + c, terms, location, enc)
         == a + enc(terms) + b + enc(location) + c
  {
    ReplaceLocationAfter(a, b, c, enc(location));
    ReplaceTermsAfter(a, b + enc(location) + c, enc(terms));
  }

  /**
   * The engine carries what `_systemEngineInit` copies from the browser's
   * engine: site, host, name, query URL, suggestion URL (always a string) and icon.
   */
  predicate Mirrors(e: SearchEngine, system: SystemEngine) {
    && e.site == system.site && e.host == system.host && e.name == system.name
    && e.queryURL == system.queryURL && e.suggestion == Some(system.suggestionURL) && e.icon == system.icon
  }

  /**
   * An engine: its host is its identity; its tags are an ordered list that the
   * same object carries wherever it is referenced.
   */
  class SearchEngine {
    const site: string
    const host: string
    const name: string
    const queryURL: string
    /** `_suggestionURL`, which engines built by hand may leave undefined. */
    const suggestion: Option<string>
    const icon: string
    var tags: seq<string>

    /** An engine built from explicit fields (the host is given, not parsed out of the site). */
    constructor (site: string, host: string, name: string, queryURL: string,
                 suggestion: Option<string>, icon: string, tags: seq<string>)
      ensures this.site == site && this.host == host && this.name == name
      ensures this.queryURL == queryURL && this.suggestion == suggestion
      ensures this.icon == icon && this.tags == tags
    {
      this.site := site;
      this.host := host;
      this.name := name;
      this.queryURL := queryURL;
      this.suggestion := suggestion;
      this.icon := icon;
      this.tags := tags;
    }

    /** An engine mirrored from the browser's search service; its suggestion URL is always a string. */
    constructor FromSystem(system: SystemEngine, tags: seq<string>)
      ensures site == system.site && host == system.host && name == system.name
      ensures queryURL == system.queryURL && suggestion == Some(system.suggestionURL)
      ensures icon == system.icon && this.tags == tags
    {
      site := system.site;
      host := system.host;
      name := system.name;
      queryURL := system.queryURL;
      suggestion := Some(system.suggestionURL);
      icon := system.icon;
      this.tags := tags;
    }

    /** The `suggestionURL` getter: `""` when the engine has none. */
    function SuggestionURL(): (r: string)
      ensures suggestion.Some? ==> r == suggestion.value
      ensures suggestion.None? ==> r == ""
    {
      if suggestion.Some? then suggestion.value else ""
    }

    /** `appendTag`: the tag goes to the end, the others keep their order. */
    method AppendTag(tag: string)
      modifies this
      ensures tags == old(tags) + [tag]
    {
      tags := tags + [tag];
    }

    /** `removeTag`: `splice(indexOf(tag), 1)` on the tag list. */
    method RemoveTag(tag: string)
      modifies this
      ensures tags == WithoutTag(old(tags), tag)
    {
      tags := SpliceOne(tags, IndexOf(tags, tag));
    }

    /** `getSubmission`: the query template filled in, the geolocated address standing in for a missing location. */
    function GetSubmission(terms: string, location: string, geoAddress: string, enc: string -> string): (r: string)
      ensures r == GetURL(queryURL, terms, Located(location, geoAddress), enc)
      ensures '{' !in queryURL ==> r == queryURL
    {
      var url := GetURL(queryURL, terms, Located(location, geoAddress), enc);
      if '{' !in queryURL then GetURLWithoutPlaceholders(queryURL, terms, Located(location, geoAddress), enc); url
      else url
    }

    /** `getSuggestion`: an engine without a suggestion URL yields `""`, so no request is made for it. */
    function GetSuggestion(terms: string, location: string, geoAddress: string, enc: string -> string): (r: string)
      ensures r == GetURL(SuggestionURL(), terms, Located(location, geoAddress), enc)
      ensures SuggestionURL() == "" ==> r == ""
    {
      var url := GetURL(SuggestionURL(), terms, Located(location, geoAddress), enc);
      if SuggestionURL() == "" then GetURLWithoutPlaceholders("", terms, Located(location, geoAddress), enc); url
      else url
    }

    /**
     * A query template with the terms placeholder and then the location
     * placeholder gets the encoded terms and the encoded location, the
     * geolocated address when no location is given.
     */
    lemma SubmissionSubstitutes(a: string, b: string, c: string, terms: string, location: string, geoAddress: string, enc: string -> string)
      requires queryURL == a + SearchTerms + b + SearchLocation + c
      requires '{' !in a && '{' !in b && '{' !in c
      ensures location != "" ==> GetSubmission(terms, location, geoAddress, enc) == a + enc(terms) + b + enc(location) + c
      ensures location == "" ==> GetSubmission(terms, location, geoAddress, enc) == a + enc(terms) + b + enc(geoAddress) + c
    {
      GetURLSubstitutesBoth(a, b, c, terms, Located(location, geoAddress), enc);
    }

    /**
     * A refresh asks for suggestions without a location, so a suggestion
     * template naming the location is filled with the geolocated address.
     */
    lemma SuggestionFallsBackToGeolocation(a: string, b: string, c: string, terms: string, geoAddress: string, enc: string -> string)
      requires SuggestionURL() == a + SearchTerms + b + SearchLocation + c
      requires '{' !in a && '{' !in b && '{' !in c
      ensures GetSuggestion(terms, "", geoAddress, enc) == a + enc(terms) + b + enc(geoAddress) + c
    {
      GetURLSubstitutesBoth(a, b, c, terms, geoAddress, enc);
    }

    /** `toJSON`: the persisted record, with the suggestion URL defaulted to `""`. */
    function ToJSON(): (j: EngineJson)
      reads this
      ensures j.host == host && j.tags == tags && j.name == name && j.site == site
      ensures j.queryURL == queryURL && j.icon == icon
      ensures j.suggestionURL == SuggestionURL()
      ensures j.suggestionURL == "" <==> suggestion.None? || suggestion.value == ""
    {
      EngineJson(name, site, host, tags, queryURL, SuggestionURL(), icon)
    }
  }
}
