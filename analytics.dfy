/** The event pipeline of `AnalyticsManager` (`js/analytics.js`): events tracked before the
    manager is initialised wait in a queue and are replayed in order once it is; the scroll-depth
    thresholds each fire once; and the parameter objects of the business, conversion and
    button-click events. What an emitted event does in the page (`gtag`, the `analytics_track`
    DOM event, the debug log) is one entry of `emitted`. */
module Analytics {
  import opened Wrappers
  import opened Strings

  /** A parameter value: the events carry strings and integers. */
  datatype Value = Str(s: string) | Num(n: int)

  /** A parameter object; JavaScript's spread lets later keys replace earlier ones, as `+` on
      maps does. */
  type Params = map<string, Value>

  /** One call of `track(eventName, parameters)`. */
  datatype Event = Event(name: string, params: Params)

  const ScrollThresholds: seq<nat> := [25, 50, 75, 90, 100]

  /** The thresholds a scroll to `percent` crosses that have not fired yet, in the order the
      thresholds are listed. */
  function NewlyCrossed(thresholds: seq<nat>, tracked: set<nat>, percent: int): (r: seq<nat>)
    ensures forall k :: 0 <= k < |r| ==> r[k] in thresholds && r[k] !in tracked && percent >= r[k]
    ensures forall t :: t in thresholds && t !in tracked && percent >= t ==> t in r
  {
    if thresholds == [] then []
    else
      var t := thresholds[0];
      var rest := NewlyCrossed(thresholds[1..], tracked, percent);
      if percent >= t && t !in tracked then [t] + rest else rest
  }

  /** The position of the first occurrence of `t` in `s`. */
  function Position(s: seq<nat>, t: nat): (i: nat)
    requires t in s
    ensures i < |s| && s[i] == t
  {
    if s[0] == t then 0 else 1 + Position(s[1..], t)
  }

  /** `s` has no repeated element. */
  predicate Distinct(s: seq<nat>) {
    forall i, j :: 0 <= i < j < |s| ==> s[i] != s[j]
  }

  /** Every element of `r` is in `s`, and they come in the order of their positions in `s`. */
  predicate InListOrder(r: seq<nat>, s: seq<nat>) {
    && (forall k :: 0 <= k < |r| ==> r[k] in s)
    && (forall i, j :: 0 <= i < j < |r| ==> Position(s, r[i]) < Position(s, r[j]))
  }

  /** Within one check every threshold fires at most once and the thresholds fire in the order
      they are listed: for a list without repeats, the crossed thresholds sit at strictly
      increasing positions of the list. With the two ensures of `NewlyCrossed` this makes the
      result exactly the qualifying thresholds in list order. */
  lemma {:induction false} NewlyCrossedInOrder(thresholds: seq<nat>, tracked: set<nat>, percent: int)
    requires Distinct(thresholds)
    ensures InListOrder(NewlyCrossed(thresholds, tracked, percent), thresholds)
    ensures Distinct(NewlyCrossed(thresholds, tracked, percent))
  {
    var r := NewlyCrossed(thresholds, tracked, percent);
    if thresholds != [] {
      var t, tail := thresholds[0], thresholds[1..];
      assert Distinct(tail);
      NewlyCrossedInOrder(tail, tracked, percent);
      var rest := NewlyCrossed(tail, tracked, percent);
      OrderInTail(thresholds, rest);
      if percent >= t && t !in tracked {
        assert r == [t] + rest;
        OrderAfterHead(thresholds, rest);
      } else {
        assert r == rest;
      }
    }
    OrderedIsDistinct(r, thresholds);
  }

  /** On the page's five thresholds, one `checkScroll` fires each threshold at most once, in
      ascending order. */
  lemma PageScrollInOrder(tracked: set<nat>, percent: int)
    ensures InListOrder(NewlyCrossed(ScrollThresholds, tracked, percent), ScrollThresholds)
    ensures Distinct(NewlyCrossed(ScrollThresholds, tracked, percent))
  {
    NewlyCrossedInOrder(ScrollThresholds, tracked, percent);
  }

  /** An order within the tail of a list without repeats is an order within the list. */
  lemma OrderInTail(s: seq<nat>, r: seq<nat>)
    requires |s| > 0 && Distinct(s) && InListOrder(r, s[1..])
    ensures InListOrder(r, s)
    ensures forall k :: 0 <= k < |r| ==> Position(s, r[k]) > 0
  {
    forall k | 0 <= k < |r| ensures Position(s, r[k]) == 1 + Position(s[1..], r[k]) {
      PositionInTail(s, r[k]);
    }
  }

  /** The head of the list comes before anything from its tail. */
  lemma OrderAfterHead(s: seq<nat>, r: seq<nat>)
    requires |s| > 0 && InListOrder(r, s)
    requires forall k :: 0 <= k < |r| ==> Position(s, r[k]) > 0
    ensures InListOrder([s[0]] + r, s)
  {
    var q := [s[0]] + r;
    assert Position(s, s[0]) == 0;
    forall k | 0 <= k < |q| ensures q[k] in s && (k > 0 ==> q[k] == r[k - 1]) {
      if k > 0 {
        assert q[k] == r[k - 1];
      }
    }
    forall i, j | 0 <= i < j < |q| ensures Position(s, q[i]) < Position(s, q[j]) {
      if i > 0 {
        assert Position(s, r[i - 1]) < Position(s, r[j - 1]);
      }
    }
  }

  /** Elements at strictly increasing positions are distinct. */
  lemma OrderedIsDistinct(r: seq<nat>, s: seq<nat>)
    requires InListOrder(r, s)
    ensures Distinct(r)
  {
  }

  /** Past the head of a list without repeats, positions shift by one. */
  lemma PositionInTail(s: seq<nat>, x: nat)
    requires |s| > 0 && Distinct(s) && x in s[1..]
    ensures Position(s, x) == 1 + Position(s[1..], x)
  {
    var m := Position(s[1..], x);
    assert s[m + 1] == x;
  }

  /** The events a list of crossed thresholds sends. */
  function ScrollEvents(crossed: seq<nat>): (r: seq<Event>)
    ensures |r| == |crossed|
    ensures forall k :: 0 <= k < |r| ==>
      r[k] == Event("scroll", map["percent_scrolled" := Num(crossed[k])])
  {
    if crossed == [] then []
    else [Event("scroll", map["percent_scrolled" := Num(crossed[0])])] + ScrollEvents(crossed[1..])
  }

  /** A threshold that has fired does not fire again: after a check marks what it crossed,
      the same or any lower percent crosses nothing new. */
  lemma ScrollFiresOnce(thresholds: seq<nat>, tracked: set<nat>, percent: int, later: int)
    requires later <= percent
    ensures var now := tracked + Reached(thresholds, percent);
      NewlyCrossed(thresholds, now, later) == []
  {
    var now := tracked + Reached(thresholds, percent);
    NothingNew(thresholds, now, later);
  }

  /** Nothing is newly crossed when every reachable threshold is marked. */
  lemma {:induction false} NothingNew(thresholds: seq<nat>, marked: set<nat>, percent: int)
    requires forall t :: t in thresholds && percent >= t ==> t in marked
    ensures NewlyCrossed(thresholds, marked, percent) == []
  {
    if thresholds != [] {
      NothingNew(thresholds[1..], marked, percent);
    }
  }

  /** Marking a threshold that is not in the list changes nothing about the list. */
  lemma {:induction false} MarkElsewhere(thresholds: seq<nat>, tracked: set<nat>, t: nat, percent: int)
    requires t !in thresholds
    ensures NewlyCrossed(thresholds, tracked + {t}, percent) == NewlyCrossed(thresholds, tracked, percent)
  {
    if thresholds != [] {
      MarkElsewhere(thresholds[1..], tracked, t, percent);
    }
  }

  /** The first threshold is decided on its own; the rest see it marked when it was reached. */
  lemma CrossedStep(t: nat, rest: seq<nat>, tracked: set<nat>, percent: int)
    requires t !in rest
    ensures NewlyCrossed([t] + rest, tracked, percent)
      == NewlyCrossed([t], tracked, percent) + NewlyCrossed(rest, Mark(tracked, t, percent), percent)
  {
    assert ([t] + rest)[1..] == rest;
    assert [t][1..] == [];
    if percent >= t {
      MarkElsewhere(rest, tracked, t, percent);
      if t in tracked {
        assert tracked + {t} == tracked;
      }
    }
  }

  /** The thresholds of the list that a scroll to `percent` has reached. */
  function Reached(thresholds: seq<nat>, percent: int): set<nat> {
    set t | t in thresholds && percent >= t
  }

  /** The marks after a scroll to `percent` has been compared with threshold `t`. */
  function Mark(tracked: set<nat>, t: nat, percent: int): (r: set<nat>)
    ensures r == tracked + Reached([t], percent)
  {
    if percent >= t then tracked + {t} else tracked
  }

  /** The event of one threshold. */
  function ScrollEvent(t: nat): Event {
    Event("scroll", map["percent_scrolled" := Num(t)])
  }

  /** What one threshold adds to the history `h`, and how that fits the rest of the list. */
  lemma FireStep(h: seq<Event>, tracked: set<nat>, t: nat, rest: seq<nat>, percent: int)
    requires t !in rest
    ensures var fired := percent >= t && t !in tracked;
      var h' := if fired then h + [ScrollEvent(t)] else h;
      var marked := if fired then tracked + {t} else tracked;
      && marked == Mark(tracked, t, percent)
      && h' == h + ScrollEvents(NewlyCrossed([t], tracked, percent))
      && h' + ScrollEvents(NewlyCrossed(rest, marked, percent))
        == h + ScrollEvents(NewlyCrossed([t] + rest, tracked, percent))
  {
    CrossedStep(t, rest, tracked, percent);
    if percent >= t && t !in tracked {
      FiredStep(h, tracked, t, rest, percent);
    } else {
      QuietStep(h, tracked, t, rest, percent);
    }
  }

  lemma FiredStep(h: seq<Event>, tracked: set<nat>, t: nat, rest: seq<nat>, percent: int)
    requires percent >= t && t !in tracked
    requires NewlyCrossed([t] + rest, tracked, percent)
      == NewlyCrossed([t], tracked, percent) + NewlyCrossed(rest, tracked + {t}, percent)
    ensures NewlyCrossed([t], tracked, percent) == [t]
    ensures h + [ScrollEvent(t)] + ScrollEvents(NewlyCrossed(rest, tracked + {t}, percent))
      == h + ScrollEvents(NewlyCrossed([t] + rest, tracked, percent))
  {
    var b := NewlyCrossed(rest, tracked + {t}, percent);
    assert [t][1..] == [];
    ScrollEventsConcat([t], b);
  }

  lemma QuietStep(h: seq<Event>, tracked: set<nat>, t: nat, rest: seq<nat>, percent: int)
    requires !(percent >= t && t !in tracked)
    requires NewlyCrossed([t] + rest, tracked, percent)
      == NewlyCrossed([t], tracked, percent) + NewlyCrossed(rest, Mark(tracked, t, percent), percent)
    ensures Mark(tracked, t, percent) == tracked
    ensures NewlyCrossed([t], tracked, percent) == []
    ensures h + ScrollEvents(NewlyCrossed(rest, tracked, percent))
      == h + ScrollEvents(NewlyCrossed([t] + rest, tracked, percent))
  {
    assert [t][1..] == [];
    if percent >= t {
      assert tracked + {t} == tracked;
    }
  }

  /** The next threshold of a list without repetitions is not among the ones after it. */
  lemma FireAllNext(thresholds: seq<nat>, n: nat)
    requires n < |thresholds|
    requires forall i, j :: 0 <= i < j < |thresholds| ==> thresholds[i] != thresholds[j]
    ensures thresholds[n..] == [thresholds[n]] + thresholds[n + 1..]
    ensures thresholds[n] !in thresholds[n + 1..]
  {
  }

  /** One round of `checkScroll`'s loop keeps its two invariants: the marks are the starting
      marks plus the thresholds reached so far, and the events emitted plus those the remaining
      thresholds will emit are the events of the whole check. */
  lemma FireAllStep(thresholds: seq<nat>, n: nat, percent: int, tracked0: set<nat>, tracked: set<nat>,
                    tracked': set<nat>, h0: seq<Event>, h: seq<Event>, h': seq<Event>)
    requires n < |thresholds|
    requires tracked == tracked0 + Reached(thresholds[..n], percent)
    requires h + ScrollEvents(NewlyCrossed(thresholds[n..], tracked, percent))
      == h0 + ScrollEvents(NewlyCrossed(thresholds, tracked0, percent))
    requires thresholds[n..] == [thresholds[n]] + thresholds[n + 1..]
    requires tracked' == Mark(tracked, thresholds[n], percent)
    requires h' + ScrollEvents(NewlyCrossed(thresholds[n + 1..], tracked', percent))
      == h + ScrollEvents(NewlyCrossed([thresholds[n]] + thresholds[n + 1..], tracked, percent))
    ensures tracked' == tracked0 + Reached(thresholds[..n + 1], percent)
    ensures h' + ScrollEvents(NewlyCrossed(thresholds[n + 1..], tracked', percent))
      == h0 + ScrollEvents(NewlyCrossed(thresholds, tracked0, percent))
  {
    assert thresholds[..n + 1] == thresholds[..n] + [thresholds[n]];
    ReachedSnoc(thresholds[..n], thresholds[n], percent);
  }

  lemma ReachedSnoc(ts: seq<nat>, t: nat, percent: int)
    ensures Reached(ts + [t], percent) == Reached(ts, percent) + Reached([t], percent)
  {
  }

  lemma {:induction false} ScrollEventsConcat(a: seq<nat>, b: seq<nat>)
    ensures ScrollEvents(a + b) == ScrollEvents(a) + ScrollEvents(b)
  {
    if a != [] {
      assert (a + b)[1..] == a[1..] + b;
      ScrollEventsConcat(a[1..], b);
    }
  }

  class AnalyticsManager {
    /** Whether `init` has finished loading the tag and set the flag. */
    var initialized: bool
    /** The events tracked before initialisation, oldest first. */
    var queue: seq<Event>
    /** The events handed on to the page's trackers, in order. */
    var emitted: seq<Event>
    /** The scroll thresholds that have fired. */
    var scrollTracked: set<nat>

    /** Events wait only while the manager is not initialised. */
    predicate Valid()
      reads this
    {
      initialized ==> queue == []
    }

    /** Every event tracked so far, in the order of the `track` calls: what was emitted, then
        what still waits. */
    function History(): seq<Event>
      reads this
    {
      emitted + queue
    }

    /** The synchronous part of `new AnalyticsManager(config)`: `init` starts loading the tag,
        which finishes later (`Init`). */
    constructor ()
      ensures Valid() && !initialized
      ensures queue == [] && emitted == [] && scrollTracked == {}
    {
      initialized := false;
      queue := [];
      emitted := [];
      scrollTracked := {};
    }

    /** `track`: before initialisation the event is queued and nothing is emitted; afterwards it
        is emitted at once. */
    method Track(e: Event)
      requires Valid()
      modifies this
      ensures Valid() && initialized == old(initialized) && scrollTracked == old(scrollTracked)
      ensures !initialized ==> queue == old(queue) + [e] && emitted == old(emitted)
      ensures initialized ==> emitted == old(emitted) + [e] && queue == old(queue)
      ensures History() == old(History()) + [e]
    {
      if !initialized {
        queue := queue + [e];
        return;
      }
      emitted := emitted + [e];
    }

    /** `processQueue`: the queued events are taken from the front and tracked again, so they are
        emitted in the order they were queued and the queue ends empty. It runs only once the
        flag is set: before that, every replayed event would be queued again and the loop would
        not end. */
    method ProcessQueue()
      requires initialized
      modifies this
      ensures Valid() && initialized && scrollTracked == old(scrollTracked)
      ensures queue == [] && emitted == old(emitted) + old(queue)
    {
      while |queue| > 0
        invariant initialized && scrollTracked == old(scrollTracked)
        invariant emitted + queue == old(emitted) + old(queue)
        decreases |queue|
      {
        var e := queue[0];
        queue := queue[1..];
        emitted := emitted + [e];
        assert emitted + queue == old(emitted) + old(queue) by {
          assert (emitted[..|emitted| - 1] + [e]) + queue == emitted[..|emitted| - 1] + ([e] + queue);
        }
      }
    }

    /** What `init` does once the tag has loaded: the enhanced tracking is set up, and its page
        view is tracked while the flag is still clear, so it joins the queue; then the flag is
        set and the queue is replayed. The replayed events are emitted, not queued again. */
    method Init(pageView: Event)
      requires Valid()
      modifies this
      ensures Valid() && initialized && queue == []
      ensures emitted == old(emitted) + old(queue) + [pageView]
      ensures History() == old(History()) + [pageView]
      ensures scrollTracked == old(scrollTracked)
    {
      Track(pageView);
      initialized := true;
      ProcessQueue();
    }

    /** `checkScroll`: each listed threshold that `percent` reaches and that has not fired yet is
        marked and tracked, in the order of the list. */
    method CheckScroll(percent: int)
      requires Valid()
      modifies this
      ensures Valid() && initialized == old(initialized)
      ensures scrollTracked == old(scrollTracked) + Reached(ScrollThresholds, percent)
      ensures History() == old(History()) + ScrollEvents(NewlyCrossed(ScrollThresholds, old(scrollTracked), percent))
    {
      FireAll(ScrollThresholds, percent);
    }

    /** The `forEach` of `checkScroll` over a list of distinct thresholds. */
    method FireAll(thresholds: seq<nat>, percent: int)
      requires Valid()
      requires forall i, j :: 0 <= i < j < |thresholds| ==> thresholds[i] != thresholds[j]
      modifies this
      ensures Valid() && initialized == old(initialized)
      ensures scrollTracked == old(scrollTracked) + Reached(thresholds, percent)
      ensures History() == old(History()) + ScrollEvents(NewlyCrossed(thresholds, old(scrollTracked), percent))
    {
      var n := 0;
      while n < |thresholds|
        invariant 0 <= n <= |thresholds|
        invariant Valid() && initialized == old(initialized)
        invariant scrollTracked == old(scrollTracked) + Reached(thresholds[..n], percent)
        invariant History() + ScrollEvents(NewlyCrossed(thresholds[n..], scrollTracked, percent))
          == old(History()) + ScrollEvents(NewlyCrossed(thresholds, old(scrollTracked), percent))
      {
        var t := thresholds[n];
        ghost var tracked, history := scrollTracked, History();
        FireAllNext(thresholds, n);
        Fire(t, thresholds[n + 1..], percent);
        FireAllStep(thresholds, n, percent, old(scrollTracked), tracked, scrollTracked, old(History()), history, History());
        n := n + 1;
      }
      assert thresholds[..n] == thresholds;
    }

    /** One threshold of `checkScroll`, with the thresholds still to come. */
    method Fire(t: nat, ghost rest: seq<nat>, percent: int)
      requires Valid() && t !in rest
      modifies this
      ensures Valid() && initialized == old(initialized)
      ensures scrollTracked == Mark(old(scrollTracked), t, percent)
      ensures History() == old(History()) + ScrollEvents(NewlyCrossed([t], old(scrollTracked), percent))
      ensures History() + ScrollEvents(NewlyCrossed(rest, scrollTracked, percent))
        == old(History()) + ScrollEvents(NewlyCrossed([t] + rest, old(scrollTracked), percent))
    {
      FireStep(History(), scrollTracked, t, rest, percent);
      if percent >= t && t !in scrollTracked {
        scrollTracked := scrollTracked + {t};
        Track(ScrollEvent(t));
      }
    }

    /** `trackBusinessEvent`. */
    method TrackBusinessEvent(action: string, details: Params)
      requires Valid()
      modifies this
      ensures Valid() && initialized == old(initialized) && scrollTracked == old(scrollTracked)
      ensures History() == old(History()) + [Event("business_action", BusinessEventParams(action, details))]
    {
      Track(Event("business_action", BusinessEventParams(action, details)));
    }

    /** `trackConversion`, with the clock's ISO time passed in. */
    method TrackConversion(kind: string, value: Option<int>, timestamp: string)
      requires Valid()
      modifies this
      ensures Valid() && initialized == old(initialized) && scrollTracked == old(scrollTracked)
      ensures History() == old(History()) + [Event("conversion", ConversionParams(kind, value, timestamp))]
    {
      Track(Event("conversion", ConversionParams(kind, value, timestamp)));
    }

    /** The click listener of `trackButtonClicks`, for a click on a button. */
    method TrackButtonClick(text: string, id: Option<string>)
      requires Valid()
      modifies this
      ensures Valid() && initialized == old(initialized) && scrollTracked == old(scrollTracked)
      ensures History() == old(History()) + [Event("button_click", ButtonClickParams(text, id))]
    {
      Track(Event("button_click", ButtonClickParams(text, id)));
    }
  }

  /** The display names of the known business actions. */
  function BusinessName(action: string): (r: Option<string>)
    ensures r.Some? <==> action in {"quote_request", "contact_form", "phone_click", "service_view"}
  {
    if action == "quote_request" then Some("Quote Request Started")
    else if action == "contact_form" then Some("Contact Form Submitted")
    else if action == "phone_click" then Some("Phone Number Clicked")
    else if action == "service_view" then Some("Service Page Viewed")
    else None
  }

  /** `{action_type: action, action_name: businessEvents[action] || action, ...details}`. */
  function BusinessEventParams(action: string, details: Params): (p: Params)
    ensures p.Keys == details.Keys + {"action_type", "action_name"}
    ensures forall k :: k in details ==> p[k] == details[k]
    ensures "action_type" !in details ==> p["action_type"] == Str(action)
    ensures "action_name" !in details ==> p["action_name"] == Str(OrElse(BusinessName(action), action))
  {
    map["action_type" := Str(action), "action_name" := Str(OrElse(BusinessName(action), action))] + details
  }

  /** An unknown action is named after itself. */
  lemma UnknownActionNamedAfterItself(action: string)
    requires BusinessName(action).None?
    ensures BusinessEventParams(action, map[])["action_name"] == Str(action)
  {
  }

  /** `{conversion_type, timestamp}`, plus `value` when it is truthy (present and not 0). */
  function ConversionParams(kind: string, value: Option<int>, timestamp: string): (p: Params)
    ensures "value" in p <==> value.Some? && value.value != 0
    ensures "value" in p ==> p["value"] == Num(value.value)
    ensures p.Keys - {"value"} == {"conversion_type", "timestamp"}
    ensures p["conversion_type"] == Str(kind) && p["timestamp"] == Str(timestamp)
  {
    var base := map["conversion_type" := Str(kind), "timestamp" := Str(timestamp)];
    if value.Some? && value.value != 0 then base["value" := Num(value.value)] else base
  }

  /** At most the first 50 characters of `s`. */
  function Prefix50(s: string): (r: string)
    ensures |r| <= 50 && |r| <= |s| && r == s[..|r|]
    ensures |s| <= 50 ==> r == s
  {
    if |s| <= 50 then s else s[..50]
  }

  /** `{button_text: text.trim().slice(0, 50), button_id: id || 'unnamed'}`. */
  function ButtonClickParams(text: string, id: Option<string>): (p: Params)
    ensures p.Keys == {"button_text", "button_id"}
    ensures p["button_text"].Str? && |p["button_text"].s| <= 50 && |p["button_text"].s| <= |Trim(text)|
    ensures p["button_text"].s == Trim(text)[..|p["button_text"].s|]
    ensures |Trim(text)| <= 50 ==> p["button_text"] == Str(Trim(text))
    ensures p["button_id"] == Str(OrElse(id, "unnamed"))
  {
    map["button_text" := Str(Prefix50(Trim(text))), "button_id" := Str(OrElse(id, "unnamed"))]
  }
}
