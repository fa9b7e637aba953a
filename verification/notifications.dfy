/**
 * The notification queue of frontend/src/components/ui/notifications.jsx:
 * `NotificationsProvider` keeps a list of notification objects and offers
 * show, update, hide and hide-all plus four typed shorthands;
 * `NotificationsContainer` renders a window of that list at one of six
 * screen positions.  A notification is a JavaScript object, modelled as a
 * map from property names to values; spreading `{...a, ...b}` is `a + b`.
 */
module Notifications {
  import opened Js
  import Seqs

  type Notification = map<string, Value>

  /** `notification.id`: `undefined` when the object has no `id` property. */
  function IdOf(n: Notification): Value {
    if "id" in n then n["id"] else Undefined
  }

  // ---------------------------------------------------------------- provider operations

  /**
   * `showNotification(props)` at time `now`: appends `{ id: now, ...props }` and
   * returns `now`.  A caller-supplied `id` property overrides the generated one.
   */
  function Show(ns: seq<Notification>, props: Notification, now: int): (r: (seq<Notification>, int))
    ensures |r.0| == |ns| + 1 && r.0[..|ns|] == ns
    ensures r.1 == now
    ensures forall k :: k in props ==> k in r.0[|ns|] && r.0[|ns|][k] == props[k]
    ensures r.0[|ns|].Keys == props.Keys + {"id"}
    ensures IdOf(r.0[|ns|]) == if "id" in props then props["id"] else Num(now)
  {
    (ns + [map["id" := Num(now)] + props], now)
  }

  /** Merges `props` into the matching notification. */
  function MergeIfId(id: Value, props: Notification): Notification -> Notification {
    n => if IdOf(n) == id then n + props else n
  }

  /**
   * `updateNotification(id, props)`: every notification whose id is `id` gets
   * `props` merged over its own; the others, the length and the order stay.
   */
  function Update(ns: seq<Notification>, id: Value, props: Notification): (r: seq<Notification>)
    ensures |r| == |ns|
    ensures forall i :: 0 <= i < |ns| && IdOf(ns[i]) != id ==> r[i] == ns[i]
    ensures forall i :: 0 <= i < |ns| && IdOf(ns[i]) == id ==>
              r[i].Keys == ns[i].Keys + props.Keys
              && forall k :: k in r[i] ==> r[i][k] == if k in props then props[k] else ns[i][k]
  {
    Seqs.Map(ns, MergeIfId(id, props))
  }

  /** Updating twice with the same properties is updating once, unless the update rewrites the id. */
  lemma UpdateIdempotent(ns: seq<Notification>, id: Value, props: Notification)
    requires "id" !in props
    ensures Update(Update(ns, id, props), id, props) == Update(ns, id, props)
  {
    var once := Update(ns, id, props);
    forall i | 0 <= i < |ns| ensures Update(once, id, props)[i] == once[i] {
      if IdOf(ns[i]) == id {
        assert IdOf(once[i]) == id;
        assert once[i] + props == once[i];
      }
    }
  }

  /** Keeps the notifications whose id differs from `id`. */
  function NotId(id: Value): Notification -> bool {
    n => IdOf(n) != id
  }

  /** `hideNotification(id)`: removes every notification with that id, keeping the rest in order. */
  function Hide(ns: seq<Notification>, id: Value): (r: seq<Notification>)
    ensures |r| <= |ns|
    ensures forall n :: n in r <==> n in ns && IdOf(n) != id
  {
    Seqs.Filter(ns, NotId(id))
  }

  /** Hiding an id twice is hiding it once. */
  lemma HideIdempotent(ns: seq<Notification>, id: Value)
    ensures Hide(Hide(ns, id), id) == Hide(ns, id)
  {
    Seqs.FilterIdempotent(ns, NotId(id));
  }

  /** Hiding distributes over concatenation: what survives keeps its relative order. */
  lemma HideConcat(a: seq<Notification>, b: seq<Notification>, id: Value)
    ensures Hide(a + b, id) == Hide(a, id) + Hide(b, id)
  {
    Seqs.FilterConcat(a, b, NotId(id));
  }

  /**
   * Hiding the id `showNotification` returned undoes the show, provided no
   * notification already had that id and the caller did not supply one.
   */
  lemma HideAfterShow(ns: seq<Notification>, props: Notification, now: int)
    requires "id" !in props
    requires forall i :: 0 <= i < |ns| ==> IdOf(ns[i]) != Num(now)
    ensures var (shown, id) := Show(ns, props, now); Hide(shown, Num(id)) == ns
  {
    var shown := Show(ns, props, now).0;
    assert shown == ns + [shown[|ns|]];
    HideConcat(ns, [shown[|ns|]], Num(now));
    Seqs.FilterKeepsAll(ns, NotId(Num(now)));
  }

  /** `hideAllNotifications()`. */
  function HideAll(ns: seq<Notification>): (r: seq<Notification>)
    ensures |r| == 0
  {
    []
  }

  /** After hiding all, the next notification shown is the only one, and it is visible. */
  lemma ShowAfterHideAll(ns: seq<Notification>, props: Notification, now: int)
    ensures var shown := Show(HideAll(ns), props, now).0;
            |shown| == 1 && Visible(shown, DefaultMaxNotifications) == shown
  {
  }

  // ---------------------------------------------------------------- shorthands

  const TypeSuccess := "success"
  const TypeError := "error"
  const TypeWarning := "warning"
  const TypeInfo := "info"

  /**
   * `success`, `error`, `warning` and `info`: `showNotification({ type, ...props })`,
   * so a `type` the caller passes wins over the shorthand's.
   */
  function ShowTyped(ns: seq<Notification>, kind: string, props: Notification, now: int): (r: (seq<Notification>, int))
    requires kind in {TypeSuccess, TypeError, TypeWarning, TypeInfo}
    ensures r.1 == now && |r.0| == |ns| + 1 && r.0[..|ns|] == ns
    ensures "type" in r.0[|ns|]
    ensures "type" !in props ==> r.0[|ns|]["type"] == Str(kind)
    ensures "type" in props ==> r.0[|ns|]["type"] == props["type"]
  {
    Show(ns, map["type" := Str(kind)] + props, now)
  }

  // ---------------------------------------------------------------- container

  const DefaultMaxNotifications := 5
  const DefaultPosition := "top-right"

  const Positions: map<string, string> := map[
    "top-right" := "top-5 right-5",
    "top-left" := "top-5 left-5",
    "bottom-right" := "bottom-5 right-5",
    "bottom-left" := "bottom-5 left-5",
    "top-center" := "top-5 left-1/2 transform -translate-x-1/2",
    "bottom-center" := "bottom-5 left-1/2 transform -translate-x-1/2"]

  /** `POSITIONS[position] || POSITIONS['top-right']`. */
  function PositionClass(position: string): (r: string)
    ensures position in Positions ==> r == Positions[position]
    ensures position !in Positions ==> r == "top-5 right-5"
    ensures r in Positions.Values
  {
    if position in Positions then Positions[position] else Positions[DefaultPosition]
  }

  /**
   * The six positions have six different classes, so the class shown tells
   * which known position was asked for; every unknown one is placed like
   * the default.
   */
  lemma PositionClassDistinguishes(p: string, q: string)
    requires p in Positions && q in Positions && PositionClass(p) == PositionClass(q)
    ensures p == q
  {
  }

  /** `Array.prototype.slice(0, end)`: a negative `end` counts back from the length. */
  function SliceTo<T>(s: seq<T>, end: int): (r: seq<T>)
    ensures end >= 0 ==> r == s[..if end < |s| then end else |s|]
    ensures end < 0 ==> r == s[..if |s| + end > 0 then |s| + end else 0]
  {
    var stop := if end < 0 then |s| + end else end;
    if stop <= 0 then [] else if stop >= |s| then s else s[..stop]
  }

  /**
   * The notifications the container renders: the first `max` of them when
   * there are more than `max`, all of them otherwise.  The window therefore
   * keeps the oldest notifications.
   */
  function Visible(ns: seq<Notification>, max: int): (r: seq<Notification>)
    ensures max >= 0 ==> |r| == (if |ns| < max then |ns| else max)
    ensures max >= 0 ==> r == ns[..|r|]
    ensures |ns| <= max ==> r == ns
    ensures max < 0 ==> |r| == (if |ns| + max > 0 then |ns| + max else 0) && r == ns[..|r|]
  {
    if |ns| > max then SliceTo(ns, max) else ns
  }

  /**
   * Once the window is full, a newly shown notification is not rendered:
   * the visible list is unchanged.
   */
  lemma ShowBeyondWindowIsHidden(ns: seq<Notification>, props: Notification, now: int, max: int)
    requires 0 <= max <= |ns|
    ensures Visible(Show(ns, props, now).0, max) == Visible(ns, max)
  {
    var shown := Show(ns, props, now).0;
    assert shown[..max] == ns[..max];
  }
}
