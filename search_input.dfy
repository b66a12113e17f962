/**
 * The search box handler `openpanel` of lib/main.js and what follows from it:
 * which panel opens, the keys that steer the open panel, the "unchanged"
 * gate in front of the 300 ms refresh, the refresh that asks every engine in
 * `_default` for suggestions, and the completion handler that drops stale
 * replies. The timer itself is abstracted to `pending`: a refresh is
 * scheduled and has not fired yet.
 */
module SearchInput {
  import opened Wrappers
  import opened Engine
  import opened Buckets
  import opened Registry
  import opened Suggestions

  /** What `openpanel` does with the panels before it looks at the query. */
  datatype Opening = NoOpening | ShowResults | ShowPermission | SetTerms

  function OpeningFor(value: string, showing: bool, geolocation: bool): (o: Opening)
    ensures o == NoOpening <==> value == ""
    ensures o == ShowResults <==> value != "" && !showing && geolocation
    ensures o == ShowPermission <==> value != "" && !showing && !geolocation
    ensures o == SetTerms <==> value != "" && showing
  {
    if value == "" then NoOpening
    else if !showing then (if geolocation then ShowResults else ShowPermission)
    else SetTerms
  }

  /** The command the open results panel is sent for a steering key. */
  datatype Command = Next | Previous | Go

  function NavCommand(keyCode: int): (c: Option<Command>)
    ensures c == Some(Next) <==> keyCode == 40
    ensures c == Some(Previous) <==> keyCode == 38
    ensures c == Some(Go) <==> keyCode == 13
    ensures c.None? <==> keyCode !in {40, 38, 13}
  {
    if keyCode == 40 then Some(Next)
    else if keyCode == 38 then Some(Previous)
    else if keyCode == 13 then Some(Go)
    else None
  }

  /** How one `openpanel` call ends. */
  datatype Gate = Ignored | Navigated(command: Command) | Unchanged | Scheduled

  /**
   * An empty box does nothing; a steering key on the open panel only steers;
   * otherwise a refresh is scheduled exactly when the box differs from the
   * last query.
   */
  function Decide(value: string, showing: bool, keyCode: int, current: Option<string>): (g: Gate)
    ensures g == Ignored <==> value == ""
    ensures g.Navigated? <==> value != "" && showing && NavCommand(keyCode).Some?
    ensures g.Navigated? ==> g.command == NavCommand(keyCode).value
    ensures g == Unchanged <==> value != "" && !(showing && NavCommand(keyCode).Some?) && current == Some(value)
    ensures g == Scheduled <==> value != "" && !(showing && NavCommand(keyCode).Some?) && current != Some(value)
  {
    if value == "" then Ignored
    else if showing && NavCommand(keyCode).Some? then Navigated(NavCommand(keyCode).value)
    else if current == Some(value) then Unchanged
    else Scheduled
  }

  /** Whether a refresh asks the engine in this slot: it is filled and its suggestion URL expands to something. */
  predicate Asked(s: Slot, value: string, geoAddress: string, enc: string -> string) {
    s.Filled? && s.engine.GetSuggestion(value, "", geoAddress, enc) != ""
  }

  /** The request for the engine in a filled slot: the box value, the engine's host and its suggestion URL. */
  function RequestOf(s: Slot, value: string, geoAddress: string, enc: string -> string): Request
    requires s.Filled?
  {
    Request(value, s.engine.host, s.engine.GetSuggestion(value, "", geoAddress, enc))
  }

  /** The requests a refresh issues for the engines in a bucket, in bucket order; holes are skipped. */
  function RequestsFor(slots: seq<Slot>, value: string, geoAddress: string, enc: string -> string): (r: seq<Request>)
  {
    if slots == [] then []
    else
      var before := RequestsFor(slots[..|slots| - 1], value, geoAddress, enc);
      var s := slots[|slots| - 1];
      if Asked(s, value, geoAddress, enc) then before + [RequestOf(s, value, geoAddress, enc)] else before
  }

  /**
   * Every request a refresh issues is for an engine of the bucket that is
   * asked, with the box value as terms and a non-empty URL; there are no more
   * requests than slots.
   */
  lemma {:induction false} RequestsForSound(slots: seq<Slot>, value: string, geoAddress: string, enc: string -> string)
    ensures |RequestsFor(slots, value, geoAddress, enc)| <= |slots|
    ensures forall r :: r in RequestsFor(slots, value, geoAddress, enc) ==>
              r.terms == value && r.url != "" &&
              exists j :: 0 <= j < |slots| && Asked(slots[j], value, geoAddress, enc) &&
                          r == RequestOf(slots[j], value, geoAddress, enc)
  {
    if slots != [] {
      var init := slots[..|slots| - 1];
      var last := |slots| - 1;
      RequestsForSound(init, value, geoAddress, enc);
      var before := RequestsFor(init, value, geoAddress, enc);
      var all := RequestsFor(slots, value, geoAddress, enc);
      var asked := Asked(slots[last], value, geoAddress, enc);
      assert all == if asked then before + [RequestOf(slots[last], value, geoAddress, enc)] else before;
      forall r | r in all
        ensures exists j :: 0 <= j < |slots| && Asked(slots[j], value, geoAddress, enc) &&
                            r == RequestOf(slots[j], value, geoAddress, enc)
      {
        if !(asked && r == RequestOf(slots[last], value, geoAddress, enc)) {
          assert r in before;
          var j :| 0 <= j < |init| && Asked(init[j], value, geoAddress, enc) && r == RequestOf(init[j], value, geoAddress, enc);
          assert init[j] == slots[j];
        }
      }
    }
  }

  /** The positions holding `true`, in increasing order. */
  function TrueIndices(mask: seq<bool>): (js: seq<nat>)
    ensures forall k :: 0 <= k < |js| ==> js[k] < |mask| && mask[js[k]]
    ensures forall k, l :: 0 <= k < l < |js| ==> js[k] < js[l]
    ensures forall j :: 0 <= j < |mask| && mask[j] ==> j in js
  {
    if mask == [] then []
    else
      var before := TrueIndices(mask[..|mask| - 1]);
      if mask[|mask| - 1] then before + [|mask| - 1] else before
  }

  /** Which slots of a bucket a refresh asks. */
  function AskedMask(slots: seq<Slot>, value: string, geoAddress: string, enc: string -> string): (m: seq<bool>)
    ensures |m| == |slots| && forall j :: 0 <= j < |slots| ==> m[j] == Asked(slots[j], value, geoAddress, enc)
  {
    seq(|slots|, j requires 0 <= j < |slots| => Asked(slots[j], value, geoAddress, enc))
  }

  /**
   * A refresh issues one request per asked slot and nothing else, in slot
   * order: the `k`-th request is for the `k`-th asked slot.
   */
  lemma {:induction false} RequestsForInOrder(slots: seq<Slot>, value: string, geoAddress: string, enc: string -> string)
    ensures var r := RequestsFor(slots, value, geoAddress, enc);
            var js := TrueIndices(AskedMask(slots, value, geoAddress, enc));
            |r| == |js| && forall k :: 0 <= k < |js| ==> r[k] == RequestOf(slots[js[k]], value, geoAddress, enc)
  {
    if slots != [] {
      var last := |slots| - 1;
      var init := slots[..last];
      RequestsForInOrder(init, value, geoAddress, enc);
      var mask := AskedMask(slots, value, geoAddress, enc);
      assert AskedMask(init, value, geoAddress, enc) == mask[..last];
      var r, before := RequestsFor(slots, value, geoAddress, enc), RequestsFor(init, value, geoAddress, enc);
      var js, earlier := TrueIndices(mask), TrueIndices(mask[..last]);
      assert r == if mask[last] then before + [RequestOf(slots[last], value, geoAddress, enc)] else before;
      assert js == if mask[last] then earlier + [last] else earlier;
      forall k | 0 <= k < |js|
        ensures r[k] == RequestOf(slots[js[k]], value, geoAddress, enc)
      {
        if k < |earlier| {
          assert init[earlier[k]] == slots[earlier[k]];
        }
      }
    }
  }

  /** Every engine of the bucket that is asked gets its request. */
  lemma {:induction false} RequestsForComplete(slots: seq<Slot>, value: string, geoAddress: string, enc: string -> string)
    ensures forall j :: 0 <= j < |slots| && Asked(slots[j], value, geoAddress, enc) ==>
              RequestOf(slots[j], value, geoAddress, enc) in RequestsFor(slots, value, geoAddress, enc)
  {
    if slots != [] {
      var init := slots[..|slots| - 1];
      RequestsForComplete(init, value, geoAddress, enc);
      forall j | 0 <= j < |slots| - 1 && Asked(slots[j], value, geoAddress, enc)
        ensures RequestOf(slots[j], value, geoAddress, enc) in RequestsFor(slots, value, geoAddress, enc)
      {
        assert init[j] == slots[j];
      }
    }
  }

  /** An engine whose suggestion URL is empty is never asked. */
  lemma NoSuggestionURLNoRequest(slots: seq<Slot>, value: string, geoAddress: string, enc: string -> string, e: SearchEngine)
    requires e.SuggestionURL() == ""
    requires forall j :: 0 <= j < |slots| && slots[j].Filled? && slots[j].engine.host == e.host ==> slots[j].engine == e
    ensures forall r :: r in RequestsFor(slots, value, geoAddress, enc) ==> r.host != e.host
  {
    RequestsForSound(slots, value, geoAddress, enc);
  }

  /** `refreshSuggestions`: one request per engine of the bucket with a non-empty suggestion URL. */
  method Refresh(bucket: Option<seq<Slot>>, value: string, geoAddress: string, enc: string -> string)
    returns (reqs: seq<Request>)
    ensures reqs == if bucket.None? then [] else RequestsFor(bucket.value, value, geoAddress, enc)
  {
    reqs := [];
    if bucket.None? {
      return;
    }
    var slots := bucket.value;
    for i := 0 to |slots|
      invariant reqs == RequestsFor(slots[..i], value, geoAddress, enc)
    {
      assert slots[..i + 1][..i] == slots[..i];
      if slots[i].Filled? {
        var url := slots[i].engine.GetSuggestion(value, "", geoAddress, enc);
        if url != "" {
          reqs := reqs + [Request(value, slots[i].engine.host, url)];
        }
      }
    }
    assert slots[..|slots|] == slots;
  }

  /** `gCurrentQuery` and the pending `gCurrentTimer` of one browser session. */
  class QuerySession {
    var currentQuery: Option<string>
    var pending: bool

    constructor ()
      ensures currentQuery == None && !pending
    {
      currentQuery := None;
      pending := false;
    }

    /**
     * `openpanel` on focus, click or key-up. Scheduling replaces any pending
     * refresh (`clearTimeout` then `setTimeout`), so at most one is pending.
     */
    method KeyUp(value: string, showing: bool, geolocation: bool, keyCode: int) returns (opening: Opening, g: Gate)
      modifies this
      ensures opening == OpeningFor(value, showing, geolocation)
      ensures g == Decide(value, showing, keyCode, old(currentQuery))
      ensures g == Scheduled ==> currentQuery == Some(value) && pending
      ensures g != Scheduled ==> currentQuery == old(currentQuery) && pending == old(pending)
    {
      if value == "" {
        return NoOpening, Ignored;
      }
      if !showing {
        opening := if geolocation then ShowResults else ShowPermission;
      } else {
        opening := SetTerms;
        var c := NavCommand(keyCode);
        if c.Some? {
          return opening, Navigated(c.value);
        }
      }
      if currentQuery == Some(value) {
        return opening, Unchanged;
      }
      currentQuery := Some(value);
      pending := true;
      g := Scheduled;
    }

    /** The pending timer fires: the refresh runs against the `_default` bucket with the box's value at that moment. */
    method Fire(reg: BrowserSearchEngines, value: string, geoAddress: string, enc: string -> string)
      returns (reqs: seq<Request>)
      requires pending && reg.Valid()
      modifies this
      ensures !pending && currentQuery == old(currentQuery)
      ensures reqs == (var b := reg.GetByTag(None); if b.None? then [] else RequestsFor(b.value, value, geoAddress, enc))
    {
      pending := false;
      reqs := Refresh(reg.GetByTag(None), value, geoAddress, enc);
    }

    /**
     * The completion handler for one request. Nothing is emitted for a status
     * other than 200 or when the query has moved on since the request was
     * made. Yelp's reply body is passed on unparsed; any other provider emits
     * only for a suggestions array, and a reply of another shape (a throw in
     * the handler) emits nothing.
     */
    method Complete(req: Request, status: int, reply: Decoded) returns (e: Option<Emission>)
      ensures status != 200 || currentQuery != Some(req.terms) ==> e.None?
      ensures status == 200 && currentQuery == Some(req.terms) && req.host == YelpHost ==>
                e == if reply.Unparsable? || reply.JsonNull? then None
                     else Some(YelpBody(req.terms, req.host, BodyOf(reply), Suggest))
      ensures status == 200 && currentQuery == Some(req.terms) && req.host != YelpHost ==>
                e == if reply.SuggestionArray? then
                       Some(Results(req.host, Normalise(req.terms, reply.completions, ProviderFor(req.host)),
                                    ProviderFor(req.host).kind, req.terms))
                     else None
    {
      if status != 200 || currentQuery != Some(req.terms) {
        return None;
      }
      var p := ProviderFor(req.host);
      if req.host == YelpHost {
        if reply.Unparsable? || reply.JsonNull? {
          return None;
        }
        assert YelpHost[11] != WikipediaHost[11];
        return Some(YelpBody(req.terms, req.host, BodyOf(reply), p.kind));
      }
      if !reply.SuggestionArray? {
        return None;
      }
      var results := BuildResults(req.terms, reply.completions, p);
      e := Some(Results(req.host, results, p.kind, req.terms));
    }
  }

  /**
   * Typing "a", "ap", "app" into an open panel schedules one refresh per
   * change; retyping the same value schedules nothing; once the query has
   * moved on, a reply to the earlier terms is dropped.
   */
  method TypingSession(reg: BrowserSearchEngines, geoAddress: string, enc: string -> string)
      returns (first: Gate, extended: Gate, changed: Gate, retyped: Gate, steered: Gate, stale: Option<Emission>)
    requires reg.Valid()
    ensures first == Scheduled && extended == Scheduled && changed == Scheduled
    ensures retyped == Unchanged && steered == Navigated(Next)
    ensures stale.None?
  {
    var s := new QuerySession();
    var o1;
    o1, first := s.KeyUp("a", false, true, 65);
    assert o1 == ShowResults;
    var o2;
    o2, extended := s.KeyUp("ap", true, true, 80);
    var o3;
    o3, changed := s.KeyUp("app", true, true, 80);
    assert s.currentQuery == Some("app") && s.pending;
    var reqs := s.Fire(reg, "app", geoAddress, enc);
    var o4;
    o4, retyped := s.KeyUp("app", true, true, 80);
    var o5;
    o5, steered := s.KeyUp("app", true, true, 40);
    var o6, g6 := s.KeyUp("apple", true, true, 76);
    stale := s.Complete(Request("app", WikipediaHost, "u"), 200, SuggestionArray("app", ["apple"]));
  }
}
