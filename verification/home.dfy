/** The home page's kitchen browser (app/page.tsx): the search-and-filter
    over the kitchen list and the cuisine chips. */
module Home {
  import opened Types
  import opened Seqs
  import opened Text

  /** `s.toLowerCase().includes(q.toLowerCase())`. */
  predicate ContainsIgnoringCase(s: string, q: string) {
    Contains(ToLower(s), ToLower(q))
  }

  /** `cuisines.some(c => ...)`. */
  predicate AnyCuisineMatches(cuisines: seq<string>, q: string)
    ensures AnyCuisineMatches(cuisines, q) <==> exists i :: 0 <= i < |cuisines| && ContainsIgnoringCase(cuisines[i], q)
  {
    if |cuisines| == 0 then false
    else
      assert forall i :: 1 <= i < |cuisines| ==> cuisines[i] == cuisines[1..][i - 1];
      ContainsIgnoringCase(cuisines[0], q) || AnyCuisineMatches(cuisines[1..], q)
  }

  /** The search box keeps a kitchen whose name or some cuisine contains the
      query, ignoring case. */
  predicate MatchesQuery(k: CloudKitchen, q: string) {
    ContainsIgnoringCase(k.name, q) || AnyCuisineMatches(k.cuisineType, q)
  }

  /** All three filters, each skipped when unset: an empty query, cuisine
      "all", kitchen type "all". */
  predicate Shown(k: CloudKitchen, query: string, cuisine: string, kitchenType: string) {
    && (query == "" || MatchesQuery(k, query))
    && (cuisine == "all" || cuisine in k.cuisineType)
    && (kitchenType == "all" || KitchenTypeName(k.kitchenType) == kitchenType)
  }

  /** `filterKitchens(query, cuisine, kitchenType)`: the three filters applied in turn. */
  function FilterKitchens(kitchens: seq<CloudKitchen>, query: string, cuisine: string, kitchenType: string): (r: seq<CloudKitchen>)
    ensures forall k :: k in r <==> k in kitchens && Shown(k, query, cuisine, kitchenType)
    ensures forall k :: multiset(r)[k] == if Shown(k, query, cuisine, kitchenType) then multiset(kitchens)[k] else 0
    ensures Subseq(r, kitchens)
  {
    var byQuery := if query != "" then Filter(kitchens, k => MatchesQuery(k, query)) else kitchens;
    var byCuisine := if cuisine != "all" then Filter(byQuery, (k: CloudKitchen) => cuisine in k.cuisineType) else byQuery;
    var byType := if kitchenType != "all" then Filter(byCuisine, (k: CloudKitchen) => KitchenTypeName(k.kitchenType) == kitchenType) else byCuisine;
    SubseqTrans(byType, byCuisine, byQuery);
    SubseqTrans(byType, byQuery, kitchens);
    assert forall k :: multiset(byType)[k] == if Shown(k, query, cuisine, kitchenType) then multiset(kitchens)[k] else 0 by {
      forall k ensures multiset(byType)[k] == if Shown(k, query, cuisine, kitchenType) then multiset(kitchens)[k] else 0 {
        assert multiset(byQuery)[k] == if query == "" || MatchesQuery(k, query) then multiset(kitchens)[k] else 0;
        assert multiset(byCuisine)[k] == if cuisine == "all" || cuisine in k.cuisineType then multiset(byQuery)[k] else 0;
      }
    }
    byType
  }

  /** With no query and both selects on "all", every kitchen is shown in order. */
  lemma NoFilterShowsAll(kitchens: seq<CloudKitchen>)
    ensures FilterKitchens(kitchens, "", "all", "all") == kitchens
  {
  }

  lemma LowerOfUpper(q: string)
    ensures ToLower(ToUpper(q)) == ToLower(q)
  {
  }

  /** Typing the query in capitals finds the same kitchens. */
  lemma QueryIgnoresCase(kitchens: seq<CloudKitchen>, query: string, cuisine: string, kitchenType: string)
    requires query != ""
    ensures forall k :: k in FilterKitchens(kitchens, query, cuisine, kitchenType)
                    <==> k in FilterKitchens(kitchens, ToUpper(query), cuisine, kitchenType)
  {
    LowerOfUpper(query);
    forall k: CloudKitchen ensures MatchesQuery(k, query) <==> MatchesQuery(k, ToUpper(query)) {
      assert AnyCuisineMatches(k.cuisineType, query) <==> AnyCuisineMatches(k.cuisineType, ToUpper(query));
    }
  }

  /** Every cuisine of every kitchen, kitchen by kitchen (`flatMap`). */
  function AllCuisineTags(kitchens: seq<CloudKitchen>): (r: seq<string>)
    ensures forall c :: c in r <==> exists i :: 0 <= i < |kitchens| && c in kitchens[i].cuisineType
  {
    if |kitchens| == 0 then []
    else
      var rest := AllCuisineTags(kitchens[1..]);
      assert forall i :: 1 <= i < |kitchens| ==> kitchens[i] == kitchens[1..][i - 1];
      kitchens[0].cuisineType + rest
  }

  /** The cuisine chips: the distinct cuisines in order of first appearance,
      at most five. */
  function AllCuisines(kitchens: seq<CloudKitchen>): (r: seq<string>)
    ensures |r| <= 5 && Distinct(r)
    ensures forall c :: c in r ==> exists i :: 0 <= i < |kitchens| && c in kitchens[i].cuisineType
    ensures forall i, j :: 0 <= i < j < |r| ==>
      && r[i] in AllCuisineTags(kitchens) && r[j] in AllCuisineTags(kitchens)
      && IndexOf(AllCuisineTags(kitchens), r[i]) < IndexOf(AllCuisineTags(kitchens), r[j])
    ensures |Dedup(AllCuisineTags(kitchens))| <= 5 ==>
      forall c :: (exists i :: 0 <= i < |kitchens| && c in kitchens[i].cuisineType) ==> c in r
    ensures |r| == if |Dedup(AllCuisineTags(kitchens))| < 5 then |Dedup(AllCuisineTags(kitchens))| else 5
    ensures forall c, d ::
      (c in r && c in AllCuisineTags(kitchens) && d in AllCuisineTags(kitchens)
       && IndexOf(AllCuisineTags(kitchens), d) < IndexOf(AllCuisineTags(kitchens), c)) ==> d in r
  {
    var tags := AllCuisineTags(kitchens);
    var all := Dedup(tags);
    var r := Take(all, 5);
    TakeDistinct(all, 5);
    TakeSubset(all, 5);
    TakeKeepsTagOrder(tags, 5);
    TakeFirstSeen(tags, 5);
    assert |all| <= 5 ==> r == all;
    r
  }

  /** The first `n` distinct tags appear in the order of their first occurrence. */
  lemma TakeKeepsTagOrder(tags: seq<string>, n: nat)
    ensures var r := Take(Dedup(tags), n);
      forall i, j :: 0 <= i < j < |r| ==>
        r[i] in tags && r[j] in tags && IndexOf(tags, r[i]) < IndexOf(tags, r[j])
  {
    var all := Dedup(tags);
    var r := Take(all, n);
    forall i, j | 0 <= i < j < |r|
      ensures r[i] in tags && r[j] in tags && IndexOf(tags, r[i]) < IndexOf(tags, r[j])
    {
      assert r[i] == all[i] && r[j] == all[j];
    }
  }

  /** The first `n` distinct tags are the ones seen first: a tag whose first
      occurrence comes before that of a kept tag is kept too. */
  lemma TakeFirstSeen(tags: seq<string>, n: nat)
    ensures var r := Take(Dedup(tags), n);
      forall c, d :: c in r && c in tags && d in tags && IndexOf(tags, d) < IndexOf(tags, c) ==> d in r
  {
    var all := Dedup(tags);
    var r := Take(all, n);
    forall c, d | c in r && c in tags && d in tags && IndexOf(tags, d) < IndexOf(tags, c)
      ensures d in r
    {
      var q :| 0 <= q < |r| && r[q] == c;
      assert all[q] == c;
      var p :| 0 <= p < |all| && all[p] == d;
      if p >= q {
        assert false;
      }
      assert r[p] == d;
    }
  }
}
