/**
 * The destination lexicon of the transcript parser, the city-first order its
 * `extractDestination` sorts it into, and the scan that picks a destination.
 */
module VoiceLexicon {
  import opened Wrappers
  import opened JsText

  /**
   * The lexicon in declaration order, written as its three runs: twelve
   * countries and regions, the eight Chinese cities, and twenty-one more
   * countries.
   */
  const Lexicon: seq<string> := LexiconHead + LexiconCities + LexiconTail

  const LexiconHead: seq<string> := [
    "日本", "韩国", "泰国", "新加坡", "马来西亚", "越南", "菲律宾", "印度尼西亚", "中国", "香港", "台湾", "澳门"]

  const LexiconCities: seq<string> := ["北京", "上海", "广州", "深圳", "成都", "西安", "杭州", "南京"]

  const LexiconTail: seq<string> := [
    "美国", "加拿大", "英国", "法国", "德国", "意大利", "西班牙", "荷兰", "瑞士", "澳大利亚", "新西兰",
    "迪拜", "土耳其", "埃及", "南非", "巴西", "阿根廷", "墨西哥", "印度", "尼泊尔", "斯里兰卡"]

  /** The names the sort comparator treats as cities. */
  const CityKeywords: seq<string> := ["北京", "上海", "广州", "深圳", "成都", "西安", "杭州", "南京", "东京", "大阪", "首尔", "曼谷"]

  /** `cityKeywords.some(keyword => d.includes(keyword))`. */
  predicate IsCity(d: string) {
    exists k :: 0 <= k < |CityKeywords| && Contains(d, CityKeywords[k])
  }

  /** The entries that satisfy `p`, in order. */
  function Keep(ds: seq<string>, p: string -> bool): (r: seq<string>)
    ensures forall i :: 0 <= i < |r| ==> p(r[i])
    ensures |r| <= |ds|
  {
    if ds == [] then [] else (if p(ds[0]) then [ds[0]] else []) + Keep(ds[1..], p)
  }

  /** The entries that do not satisfy `p`, in order. */
  function Drop(ds: seq<string>, p: string -> bool): (r: seq<string>)
    ensures forall i :: 0 <= i < |r| ==> !p(r[i])
    ensures |r| <= |ds|
  {
    if ds == [] then [] else (if p(ds[0]) then [] else [ds[0]]) + Drop(ds[1..], p)
  }

  /**
   * `this.destinations.sort(cmp)` where `cmp` puts cities before everything
   * else and calls every other pair equal. The sort is stable, so the result
   * is the cities in their old order followed by the rest in their old order.
   */
  function CityFirst(ds: seq<string>): seq<string> {
    Keep(ds, IsCity) + Drop(ds, IsCity)
  }

  lemma {:induction false} PartitionPermutation(ds: seq<string>, p: string -> bool)
    ensures multiset(Keep(ds, p)) + multiset(Drop(ds, p)) == multiset(ds)
    decreases |ds|
  {
    if ds != [] {
      PartitionPermutation(ds[1..], p);
      assert ds == [ds[0]] + ds[1..];
    }
  }

  /** The sort only reorders: the same entries, each as often as before. */
  lemma CityFirstPermutation(ds: seq<string>)
    ensures multiset(CityFirst(ds)) == multiset(ds)
  {
    PartitionPermutation(ds, IsCity);
  }

  /** An entry is in the sorted list exactly when it is in the original one. */
  lemma CityFirstMembers(ds: seq<string>, x: string)
    ensures x in CityFirst(ds) <==> x in ds
  {
    CityFirstPermutation(ds);
    assert x in CityFirst(ds) <==> x in multiset(CityFirst(ds));
    assert x in ds <==> x in multiset(ds);
  }

  /** No entry that is not a city comes before a city. */
  lemma CityFirstOrdered(ds: seq<string>)
    ensures forall i, j :: 0 <= i < j < |CityFirst(ds)| && IsCity(CityFirst(ds)[j]) ==> IsCity(CityFirst(ds)[i])
  {
    var r := CityFirst(ds);
    forall i, j | 0 <= i < j < |r| && IsCity(r[j])
      ensures IsCity(r[i])
    {
      if j < |Keep(ds, IsCity)| {
        assert r[i] == Keep(ds, IsCity)[i];
      }
    }
  }

  lemma {:induction false} PartitionAppend(a: seq<string>, b: seq<string>, p: string -> bool)
    ensures Keep(a + b, p) == Keep(a, p) + Keep(b, p)
    ensures Drop(a + b, p) == Drop(a, p) + Drop(b, p)
    decreases |a|
  {
    if a == [] {
      assert a + b == b;
    } else {
      assert (a + b)[0] == a[0];
      assert (a + b)[1..] == a[1..] + b;
      PartitionAppend(a[1..], b, p);
    }
  }

  lemma {:induction false} PartitionAllKept(ds: seq<string>, p: string -> bool)
    requires forall i :: 0 <= i < |ds| ==> p(ds[i])
    ensures Keep(ds, p) == ds && Drop(ds, p) == []
    decreases |ds|
  {
    if ds != [] {
      PartitionAllKept(ds[1..], p);
    }
  }

  lemma {:induction false} PartitionAllDropped(ds: seq<string>, p: string -> bool)
    requires forall i :: 0 <= i < |ds| ==> !p(ds[i])
    ensures Keep(ds, p) == [] && Drop(ds, p) == ds
    decreases |ds|
  {
    if ds != [] {
      PartitionAllDropped(ds[1..], p);
    }
  }

  /** The sort is stable: cities keep their relative order, and so does everything else. */
  lemma CityFirstStable(ds: seq<string>)
    ensures Keep(CityFirst(ds), IsCity) == Keep(ds, IsCity)
    ensures Drop(CityFirst(ds), IsCity) == Drop(ds, IsCity)
  {
    PartitionAppend(Keep(ds, IsCity), Drop(ds, IsCity), IsCity);
    PartitionAllKept(Keep(ds, IsCity), IsCity);
    PartitionAllDropped(Drop(ds, IsCity), IsCity);
  }

  /** Sorting the sorted lexicon again changes nothing. */
  lemma CityFirstIdempotent(ds: seq<string>)
    ensures CityFirst(CityFirst(ds)) == CityFirst(ds)
  {
    CityFirstStable(ds);
  }

  /** An entry that misses a character of every keyword is not a city. */
  lemma NotCityByChars(d: string)
    requires forall k :: 0 <= k < |CityKeywords| ==> CityKeywords[k][0] !in d || CityKeywords[k][1] !in d
    ensures !IsCity(d)
  {
    forall k | 0 <= k < |CityKeywords|
      ensures !Contains(d, CityKeywords[k])
    {
      if CityKeywords[k][0] !in d {
        AbsentCharRulesOut(d, CityKeywords[k], 0);
      } else {
        AbsentCharRulesOut(d, CityKeywords[k], 1);
      }
    }
  }

  /** The eight Chinese cities are cities to the comparator; no other entry is. */
  lemma HeadNotCities()
    ensures forall i :: 0 <= i < |LexiconHead| ==> !IsCity(LexiconHead[i])
  {
    forall i | 0 <= i < |LexiconHead|
      ensures !IsCity(LexiconHead[i])
    {
      NotCityByChars(LexiconHead[i]);
    }
  }

  lemma CitiesAreCities()
    ensures forall i :: 0 <= i < |LexiconCities| ==> IsCity(LexiconCities[i])
  {
    forall i | 0 <= i < |LexiconCities|
      ensures IsCity(LexiconCities[i])
    {
      assert LexiconCities[i] == CityKeywords[i];
      assert OccursAt(LexiconCities[i], CityKeywords[i], 0);
    }
  }

  lemma TailNotCities()
    ensures forall i :: 0 <= i < |LexiconTail| ==> !IsCity(LexiconTail[i])
  {
    TailNotCitiesFrom(0, 7);
    TailNotCitiesFrom(7, 14);
    TailNotCitiesFrom(14, |LexiconTail|);
  }

  lemma TailNotCitiesFrom(lo: nat, hi: nat)
    requires lo <= hi <= |LexiconTail| && hi - lo <= 7
    ensures forall i :: lo <= i < hi ==> !IsCity(LexiconTail[i])
  {
    forall i | lo <= i < hi
      ensures !IsCity(LexiconTail[i])
    {
      NotCityByChars(LexiconTail[i]);
    }
  }

  /** After the sort the eight Chinese cities lead, and both other runs keep their order. */
  lemma LexiconCityFirst()
    ensures CityFirst(Lexicon) == LexiconCities + LexiconHead + LexiconTail
  {
    HeadNotCities();
    CitiesAreCities();
    TailNotCities();
    PartitionRuns(LexiconHead, LexiconCities, LexiconTail, IsCity);
  }

  /** Partitioning three runs whose middle run alone satisfies `p` moves that run to the front. */
  lemma PartitionRuns(h: seq<string>, c: seq<string>, t: seq<string>, p: string -> bool)
    requires forall i :: 0 <= i < |h| ==> !p(h[i])
    requires forall i :: 0 <= i < |c| ==> p(c[i])
    requires forall i :: 0 <= i < |t| ==> !p(t[i])
    ensures Keep(h + c + t, p) == c
    ensures Drop(h + c + t, p) == h + t
  {
    PartitionAppend(h + c, t, p);
    PartitionAppend(h, c, p);
    PartitionAllDropped(h, p);
    PartitionAllKept(c, p);
    PartitionAllDropped(t, p);
    EmptyAround(c);
    EmptyBetween(h, t);
  }

  lemma EmptyAround(x: seq<string>)
    ensures [] + x + [] == x
  {
  }

  lemma EmptyBetween(a: seq<string>, b: seq<string>)
    ensures a + [] + b == a + b
  {
  }

  /** `text.includes(d.toLowerCase()) || text.includes(d)`. */
  predicate Mentions(text: string, d: string) {
    Contains(text, ToLower(d)) || Contains(text, d)
  }

  /** A character of `d` that is not an ASCII capital and is missing from the text rules `d` out. */
  lemma AbsentCharNotMentioned(text: string, d: string, j: nat)
    requires j < |d| && d[j] !in text && !('A' <= d[j] <= 'Z')
    ensures !Mentions(text, d)
  {
    AbsentCharRulesOut(text, d, j);
    assert ToLower(d)[j] == d[j];
    AbsentCharRulesOut(text, ToLower(d), j);
  }

  /** The first entry of `ds` that the text mentions. */
  function Scan(text: string, ds: seq<string>): (r: Option<string>)
    ensures r.Some? ==> r.value in ds && Mentions(text, r.value)
    ensures r.None? <==> forall i :: 0 <= i < |ds| ==> !Mentions(text, ds[i])
  {
    if ds == [] then None
    else if Mentions(text, ds[0]) then Some(ds[0])
    else
      var r := Scan(text, ds[1..]);
      assert forall i :: 1 <= i < |ds| ==> ds[i] == ds[1..][i - 1];
      r
  }

  /** The scan returns the entry at `k` exactly when it is mentioned and nothing before it is. */
  lemma {:induction false} ScanFindsFirst(text: string, ds: seq<string>, k: nat)
    requires k < |ds| && Mentions(text, ds[k])
    requires forall i :: 0 <= i < k ==> !Mentions(text, ds[i])
    ensures Scan(text, ds) == Some(ds[k])
    decreases k
  {
    if k > 0 {
      assert !Mentions(text, ds[0]);
      ScanFindsFirst(text, ds[1..], k - 1);
    }
  }

  /** Keyword groups tried when no lexicon entry is mentioned: Japan, then Korea, then Thailand. */
  function KeywordGroups(text: string): (r: Option<string>)
    ensures r == Some("日本") <==> JapanMentioned(text)
    ensures r == Some("韩国") <==> !JapanMentioned(text) && KoreaMentioned(text)
    ensures r == Some("泰国") <==> !JapanMentioned(text) && !KoreaMentioned(text) && ThailandMentioned(text)
    ensures r.None? <==> !JapanMentioned(text) && !KoreaMentioned(text) && !ThailandMentioned(text)
    ensures r.None? ==> forall k :: k in ["樱花", "富士山", "东京", "大阪", "京都", "泡菜", "首尔", "韩流", "大象", "曼谷", "普吉岛"] ==> !Contains(text, k)
  {
    if JapanMentioned(text) then Some("日本")
    else if KoreaMentioned(text) then Some("韩国")
    else if ThailandMentioned(text) then Some("泰国")
    else None
  }

  predicate JapanMentioned(text: string) {
    Contains(text, "樱花") || Contains(text, "富士山") || Contains(text, "东京") || Contains(text, "大阪") || Contains(text, "京都")
  }

  predicate KoreaMentioned(text: string) {
    Contains(text, "泡菜") || Contains(text, "首尔") || Contains(text, "韩流")
  }

  predicate ThailandMentioned(text: string) {
    Contains(text, "大象") || Contains(text, "曼谷") || Contains(text, "普吉岛")
  }

  /** `extractDestination` once the lexicon `ds` is in scan order. */
  function DestinationOf(text: string, ds: seq<string>): Option<string> {
    match Scan(text, ds)
    case Some(d) => Some(d)
    case None => KeywordGroups(text)
  }
}
