/**
 * The scenic-photo carousel: the list of image queries built from the
 * destination and the itinerary, the photos kept from the settled lookups,
 * and the index the arrows and thumbnails move. The lookups themselves
 * (Unsplash, the placeholder service, randomness) are parameters.
 */
module ScenicPhotos {
  import opened Wrappers
  import opened JsText

  datatype Photo = Photo(id: string, url: string, title: string, location: string)

  /** How one lookup settled. */
  datatype Outcome = Fulfilled(photo: Photo) | Rejected

  /** One `getPhotoByQuery(location, query)` call. */
  datatype Query = Query(location: string, text: string)

  /** An itinerary activity; an empty `location` is a missing one. */
  datatype Activity = Activity(location: string, activity: string)

  /** A day of the itinerary; `None` is a day whose `activities` is missing. */
  datatype Day = Day(activities: Option<seq<Activity>>)

  const MaxPhotos := 8

  // ---------------------------------------------------------------------
  // Query list
  // ---------------------------------------------------------------------

  /** The three lookups for the destination itself. */
  function DestinationQueries(destination: string): seq<Query> {
    [Query(destination, destination + "旅游景点"), Query(destination, destination + "风景"),
     Query(destination, destination + "地标")]
  }

  /** An activity gets a lookup when its location is present and is not the destination. */
  predicate Qualifies(destination: string, a: Activity) {
    a.location != "" && a.location != destination
  }

  function ActivityQueries(destination: string, acts: seq<Activity>): seq<Query>
    decreases |acts|
  {
    if acts == [] then []
    else
      var a := acts[|acts| - 1];
      ActivityQueries(destination, acts[..|acts| - 1]) + (if Qualifies(destination, a) then [Query(a.location, a.activity)] else [])
  }

  function DayQueries(destination: string, days: seq<Day>): seq<Query>
    decreases |days|
  {
    if days == [] then []
    else
      var d := days[|days| - 1];
      DayQueries(destination, days[..|days| - 1]) + (if d.activities.Some? then ActivityQueries(destination, d.activities.value) else [])
  }

  /** Every lookup `fetchScenicPhotos` starts, in order; `None` is an itinerary without `days`. */
  function QueriesOf(destination: string, days: Option<seq<Day>>): seq<Query> {
    DestinationQueries(destination) + (if days.Some? then DayQueries(destination, days.value) else [])
  }

  /** The nested `forEach` loops that push the lookups. */
  method CollectQueries(destination: string, days: Option<seq<Day>>) returns (qs: seq<Query>)
    ensures qs == QueriesOf(destination, days)
  {
    qs := DestinationQueries(destination);
    if days.Some? {
      var ds := days.value;
      var i := 0;
      while i < |ds|
        invariant 0 <= i <= |ds|
        invariant qs == DestinationQueries(destination) + DayQueries(destination, ds[..i])
      {
        ghost var before := qs;
        if ds[i].activities.Some? {
          qs := PushActivityQueries(destination, ds[i].activities.value, qs);
        }
        assert ds[..i + 1][..i] == ds[..i];
        assert DayQueries(destination, ds[..i + 1]) == DayQueries(destination, ds[..i])
          + (if ds[i].activities.Some? then ActivityQueries(destination, ds[i].activities.value) else []);
        i := i + 1;
      }
      assert ds[..|ds|] == ds;
    }
  }

  /** The inner `forEach` over one day's activities, pushing onto `qs`. */
  method PushActivityQueries(destination: string, acts: seq<Activity>, qs0: seq<Query>) returns (qs: seq<Query>)
    ensures qs == qs0 + ActivityQueries(destination, acts)
  {
    qs := qs0;
    var j := 0;
    while j < |acts|
      invariant 0 <= j <= |acts|
      invariant qs == qs0 + ActivityQueries(destination, acts[..j])
    {
      if Qualifies(destination, acts[j]) {
        qs := qs + [Query(acts[j].location, acts[j].activity)];
      }
      assert acts[..j + 1][..j] == acts[..j];
      j := j + 1;
    }
    assert acts[..|acts|] == acts;
  }

  /** A lookup after the first three belongs to exactly one qualifying activity, and every qualifying activity has one. */
  lemma {:induction false} ActivityQueriesExactly(destination: string, acts: seq<Activity>, q: Query)
    ensures q in ActivityQueries(destination, acts)
      <==> exists k :: 0 <= k < |acts| && Qualifies(destination, acts[k]) && q == Query(acts[k].location, acts[k].activity)
    ensures |ActivityQueries(destination, acts)| <= |acts|
    decreases |acts|
  {
    if acts != [] {
      var init := acts[..|acts| - 1];
      ActivityQueriesExactly(destination, init, q);
      if q in ActivityQueries(destination, init) {
        var k :| 0 <= k < |init| && Qualifies(destination, init[k]) && q == Query(init[k].location, init[k].activity);
        assert acts[k] == init[k];
      }
      if exists k :: 0 <= k < |acts| && Qualifies(destination, acts[k]) && q == Query(acts[k].location, acts[k].activity) {
        var k :| 0 <= k < |acts| && Qualifies(destination, acts[k]) && q == Query(acts[k].location, acts[k].activity);
        if k < |init| { assert init[k] == acts[k]; }
      }
    }
  }

  /** No lookup is made for the destination itself or for a missing location, beyond the first three. */
  lemma {:induction false} LaterQueriesQualify(destination: string, days: seq<Day>)
    ensures forall q :: q in DayQueries(destination, days) ==> q.location != "" && q.location != destination
    decreases |days|
  {
    if days != [] {
      LaterQueriesQualify(destination, days[..|days| - 1]);
      var d := days[|days| - 1];
      if d.activities.Some? {
        forall q | q in ActivityQueries(destination, d.activities.value)
          ensures q.location != "" && q.location != destination
        {
          ActivityQueriesExactly(destination, d.activities.value, q);
        }
      }
    }
  }

  /** The list opens with the three destination lookups, whatever the itinerary. */
  lemma DestinationFirst(destination: string, days: Option<seq<Day>>)
    ensures |QueriesOf(destination, days)| >= 3
    ensures QueriesOf(destination, days)[..3] == DestinationQueries(destination)
    ensures forall k :: 3 <= k < |QueriesOf(destination, days)| ==>
      QueriesOf(destination, days)[k].location != "" && QueriesOf(destination, days)[k].location != destination
  {
    if days.Some? {
      LaterQueriesQualify(destination, days.value);
      var rest := DayQueries(destination, days.value);
      forall k | 3 <= k < |QueriesOf(destination, days)|
        ensures QueriesOf(destination, days)[k].location != "" && QueriesOf(destination, days)[k].location != destination
      {
        assert QueriesOf(destination, days)[k] == rest[k - 3];
      }
    }
  }

  // ---------------------------------------------------------------------
  // One lookup
  // ---------------------------------------------------------------------

  const PlaceholderBase := "https://picsum.photos/800/600?random="

  /** The placeholder photo, for `random` = `Math.floor(Math.random() * 1000)`. */
  function Placeholder(q: Query, random: nat): Photo {
    Photo(q.location + "-" + q.text, PlaceholderBase + IntToString(random), q.text, q.location)
  }

  /**
   * `getPhotoByQuery`: the first Unsplash result when there is one (`None`
   * covers a missing key, a failed request, no results and anything thrown
   * on the way), the placeholder otherwise. It never rejects.
   */
  function PhotoFor(q: Query, found: Option<Photo>, random: nat): (p: Photo)
    ensures found.None? ==> p.url != "" && p.title == q.text && p.location == q.location
  {
    match found
    case Some(photo) => photo
    case None => Placeholder(q, random)
  }

  // ---------------------------------------------------------------------
  // Kept photos
  // ---------------------------------------------------------------------

  /** The fulfilled lookups whose photo has a URL, in their original order. */
  function Usable(results: seq<Outcome>): seq<Photo>
    decreases |results|
  {
    if results == [] then []
    else
      var r := results[|results| - 1];
      Usable(results[..|results| - 1]) + (if r.Fulfilled? && r.photo.url != "" then [r.photo] else [])
  }

  /** The filter keeps order: the usable photos of two runs of lookups are those of the first run, then those of the second. */
  lemma {:induction false} UsableAppend(front: seq<Outcome>, back: seq<Outcome>)
    ensures Usable(front + back) == Usable(front) + Usable(back)
    decreases |back|
  {
    if back == [] {
      assert front + back == front;
    } else {
      var init := back[..|back| - 1];
      UsableAppend(front, init);
      assert (front + back)[..|front + back| - 1] == front + init;
      assert (front + back)[|front + back| - 1] == back[|back| - 1];
    }
  }

  /** `validPhotos.slice(0, 8)`. */
  function KeptPhotos(results: seq<Outcome>): (ps: seq<Photo>)
    ensures |ps| <= MaxPhotos
    ensures |ps| == if |Usable(results)| < MaxPhotos then |Usable(results)| else MaxPhotos
  {
    var usable := Usable(results);
    if |usable| <= MaxPhotos then usable else usable[..MaxPhotos]
  }

  /** Every usable photo came from a fulfilled lookup and has a URL; every such lookup is usable. */
  lemma {:induction false} UsableExactly(results: seq<Outcome>, p: Photo)
    ensures p in Usable(results) <==> Fulfilled(p) in results && p.url != ""
    decreases |results|
  {
    if results != [] {
      var init := results[..|results| - 1];
      UsableExactly(init, p);
      assert results == init + [results[|results| - 1]];
    }
  }

  /** The kept photos are the first usable ones: all of them when there are at most eight. */
  lemma KeptAreFirstUsable(results: seq<Outcome>)
    ensures KeptPhotos(results) == Usable(results)[..|KeptPhotos(results)|]
    ensures forall p :: p in KeptPhotos(results) ==> Fulfilled(p) in results && p.url != ""
    ensures |Usable(results)| <= MaxPhotos ==> KeptPhotos(results) == Usable(results)
  {
    forall p | p in KeptPhotos(results)
      ensures Fulfilled(p) in results && p.url != ""
    {
      UsableExactly(results, p);
    }
  }

  /** When every lookup fulfilled with a URL (as the placeholder always does), all are usable and the first eight are shown. */
  lemma {:induction false} AllUsable(results: seq<Outcome>)
    requires forall k :: 0 <= k < |results| ==> results[k].Fulfilled? && results[k].photo.url != ""
    ensures Usable(results) == seq(|results|, k requires 0 <= k < |results| => results[k].photo)
    ensures |KeptPhotos(results)| == if |results| < MaxPhotos then |results| else MaxPhotos
    decreases |results|
  {
    if results != [] {
      AllUsable(results[..|results| - 1]);
    }
  }

  /** With no Unsplash results, one photo per lookup is shown, up to eight, each titled with its query. */
  lemma PlaceholdersShown(qs: seq<Query>, randoms: seq<nat>)
    requires |randoms| == |qs|
    ensures var results := seq(|qs|, k requires 0 <= k < |qs| => Fulfilled(PhotoFor(qs[k], None, randoms[k])));
      |KeptPhotos(results)| == (if |qs| < MaxPhotos then |qs| else MaxPhotos)
      && forall k :: 0 <= k < |KeptPhotos(results)| ==> KeptPhotos(results)[k].title == qs[k].text
  {
    var results := seq(|qs|, k requires 0 <= k < |qs| => Fulfilled(PhotoFor(qs[k], None, randoms[k])));
    AllUsable(results);
  }

  // ---------------------------------------------------------------------
  // Carousel index
  // ---------------------------------------------------------------------

  /** `(prev + 1) % n`; JavaScript's `%` agrees with Dafny's on these non-negative operands. */
  function NextIndex(i: int, n: int): int
    requires n > 0
  {
    (i + 1) % n
  }

  /** `(prev - 1 + n) % n`. */
  function PrevIndex(i: int, n: int): int
    requires n > 0
  {
    (i - 1 + n) % n
  }

  /** Both moves stay within the list, and each undoes the other. */
  lemma MovesInRange(i: int, n: int)
    requires 0 <= i < n
    ensures 0 <= NextIndex(i, n) < n && 0 <= PrevIndex(i, n) < n
    ensures NextIndex(i, n) == if i == n - 1 then 0 else i + 1
    ensures PrevIndex(i, n) == if i == 0 then n - 1 else i - 1
    ensures PrevIndex(NextIndex(i, n), n) == i && NextIndex(PrevIndex(i, n), n) == i
  {
    ModBelow(i + 1, n);
    ModBelow(i - 1 + n, n);
    var j := NextIndex(i, n);
    ModBelow(j - 1 + n, n);
    var k := PrevIndex(i, n);
    ModBelow(k + 1, n);
  }

  /** `a % n` for `0 <= a < 2n`. */
  lemma ModBelow(a: int, n: int)
    requires n > 0 && 0 <= a < 2 * n
    ensures a % n == if a < n then a else a - n
  {
    if a >= n {
      assert a == 1 * n + (a - n);
    }
  }

  /** The index after `k` presses of the next arrow. */
  function NextTimes(i: int, n: int, k: nat): int
    requires n > 0
    decreases k
  {
    if k == 0 then i else NextIndex(NextTimes(i, n, k - 1), n)
  }

  /** Up to a full turn, `k` presses move `k` places round the circle. */
  lemma {:induction false} NextTimesWraps(i: int, n: int, k: nat)
    requires 0 <= i < n && k <= n
    ensures NextTimes(i, n, k) == if i + k < n then i + k else i + k - n
    decreases k
  {
    if k > 0 {
      NextTimesWraps(i, n, k - 1);
      ModBelow(NextTimes(i, n, k - 1) + 1, n);
    }
  }

  /** `n` presses of the next arrow over `n` photos come back to the photo they started from. */
  lemma FullTurn(i: int, n: int)
    requires 0 <= i < n
    ensures NextTimes(i, n, n) == i
  {
    NextTimesWraps(i, n, n);
  }

  /**
   * The component's photo list and index. `Valid` is what rendering needs:
   * with at least one photo, `photos[currentIndex]` exists.
   */
  class Carousel {
    var photos: seq<Photo>
    var index: int

    predicate Valid()
      reads this
    {
      ValidState(photos, index)
    }

    constructor ()
      ensures photos == [] && index == 0 && Valid()
    {
      photos := [];
      index := 0;
    }

    /** `nextPhoto`; its button is rendered only when there is more than one photo. */
    method Next()
      requires Valid() && |photos| > 1
      modifies this
      ensures photos == old(photos) && index == NextIndex(old(index), |photos|) && Valid()
    {
      MovesInRange(index, |photos|);
      index := (index + 1) % |photos|;
    }

    /** `prevPhoto`, under the same condition. */
    method Prev()
      requires Valid() && |photos| > 1
      modifies this
      ensures photos == old(photos) && index == PrevIndex(old(index), |photos|) && Valid()
    {
      MovesInRange(index, |photos|);
      index := (index - 1 + |photos|) % |photos|;
    }

    /** A click on the thumbnail at position `k`. */
    method Select(k: int)
      requires Valid() && 0 <= k < |photos|
      modifies this
      ensures photos == old(photos) && index == k && Valid()
    {
      index := k;
    }

    /** The end of a successful fetch, with the index reset (see README, Findings). */
    method Load(results: seq<Outcome>)
      requires Valid()
      modifies this
      ensures (photos, index) == Loaded(old(index), results) && Valid()
    {
      photos := KeptPhotos(results);
      index := 0;
    }
  }

  predicate ValidState(photos: seq<Photo>, index: int) {
    photos == [] || 0 <= index < |photos|
  }

  /** As written: the new list replaces the old one and the index is left where it was. */
  function LoadedAsWritten(index: int, results: seq<Outcome>): (seq<Photo>, int) {
    (KeptPhotos(results), index)
  }

  /** Corrected: the new list is shown from its first photo, so rendering always finds one. */
  function Loaded(index: int, results: seq<Outcome>): (r: (seq<Photo>, int))
    ensures r.0 == KeptPhotos(results) && ValidState(r.0, r.1)
  {
    (KeptPhotos(results), 0)
  }

  /**
   * Viewing the sixth of eight photos and then loading a list of three (the
   * itinerary changed) leaves index 5 over a three-photo list, so the render
   * reads `photos[5]`, which is undefined.
   */
  lemma StaleIndexAsWritten(p: Photo)
    requires p.url != ""
    ensures var after := LoadedAsWritten(5, [Fulfilled(p), Fulfilled(p), Fulfilled(p)]);
      |after.0| == 3 && !ValidState(after.0, after.1)
    ensures ValidState([p, p, p, p, p, p, p, p], 5)
  {
    var rs := [Fulfilled(p), Fulfilled(p), Fulfilled(p)];
    assert rs[..2][..1] == [Fulfilled(p)] && rs[..2] == [Fulfilled(p), Fulfilled(p)];
    assert [Fulfilled(p)][..0] == [];
    assert Usable([Fulfilled(p)]) == [p];
    assert Usable(rs[..2]) == [p, p];
    assert Usable(rs) == [p, p, p];
  }
}
