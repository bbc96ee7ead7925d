/**
 * The landing page's pain-point picker: the fixed catalogue of creator
 * pain points, toggling a pain point in an ordered selection, and the
 * solutions shown for the selection.
 */
module PainSelection {

  /** A catalogue item; its icon is presentation only. */
  datatype PainPoint = PainPoint(pain: string, solution: string)

  /** `creatorPainPoints`, in display order. */
  const CreatorPainPoints: seq<PainPoint> := [
    PainPoint("I spend weeks setting up my course platform instead of creating content",
              "Launch-ready course platform in under 5 minutes with zero technical setup"),
    PainPoint("Technical setup costs eat into my course profits",
              "All-in-one solution that eliminates expensive developers and monthly tool subscriptions"),
    PainPoint("I lose students during complicated enrollment processes",
              "Streamlined, conversion-optimized enrollment that maximizes student sign-ups"),
    PainPoint("Managing payments, emails, and content delivery is overwhelming",
              "Automated systems handle everything while you focus on teaching and growing")
  ]

  /** No string occurs twice in `s`. */
  ghost predicate Distinct(s: seq<string>) {
    forall i, j :: 0 <= i < j < |s| ==> s[i] != s[j]
  }

  /** `s.filter((x) => x !== p)`: every occurrence of `p` removed. */
  function Without(s: seq<string>, p: string): (r: seq<string>)
    ensures p !in r
    ensures forall x :: x in r <==> x in s && x != p
  {
    if s == [] then []
    else if s[0] == p then Without(s[1..], p) else [s[0]] + Without(s[1..], p)
  }

  /** Every string other than `p` keeps its number of occurrences. */
  lemma {:induction false} WithoutCounts(s: seq<string>, p: string)
    ensures multiset(Without(s, p)) == multiset(s)[p := 0]
  {
    if s != [] {
      WithoutCounts(s[1..], p);
      assert s == [s[0]] + s[1..];
    }
  }

  /** Filtering distributes over concatenation, so the elements kept stay
      in their relative order. */
  lemma {:induction false} WithoutConcat(a: seq<string>, b: seq<string>, p: string)
    ensures Without(a + b, p) == Without(a, p) + Without(b, p)
  {
    if a == [] {
      assert a + b == b;
    } else {
      var ab := a + b;
      assert ab[0] == a[0] && ab[1..] == a[1..] + b;
      WithoutConcat(a[1..], b, p);
      var head := if a[0] == p then [] else [a[0]];
      var x, y := Without(a[1..], p), Without(b, p);
      assert Without(ab, p) == head + (x + y);
      assert Without(a, p) == head + x;
      assert head + (x + y) == (head + x) + y;
    }
  }

  /** Removing a string that is not there changes nothing. */
  lemma {:induction false} WithoutAbsent(s: seq<string>, p: string)
    requires p !in s
    ensures Without(s, p) == s
  {
    if s != [] {
      WithoutAbsent(s[1..], p);
    }
  }

  /** Removing keeps a duplicate-free list duplicate-free. */
  lemma {:induction false} WithoutDistinct(s: seq<string>, p: string)
    requires Distinct(s)
    ensures Distinct(Without(s, p))
  {
    if s != [] {
      WithoutDistinct(s[1..], p);
      var w := Without(s[1..], p);
      if s[0] != p {
        assert s[0] !in w;
        assert forall j :: 0 < j < |[s[0]] + w| ==> ([s[0]] + w)[j] == w[j - 1];
      }
    }
  }

  /** `togglePainPoint`: remove the pain point if selected, else append it. */
  function Toggle(s: seq<string>, p: string): (r: seq<string>)
    ensures p in r <==> p !in s
    ensures forall x :: x != p ==> (x in r <==> x in s)
    ensures p !in s ==> r == s + [p]
    ensures p in s ==> multiset(r) == multiset(s)[p := 0]
  {
    if p in s then WithoutCounts(s, p); Without(s, p) else s + [p]
  }

  /** Toggling off a selected pain point keeps the others in their order. */
  lemma ToggleRemovesInOrder(a: seq<string>, b: seq<string>, p: string)
    ensures Toggle(a + [p] + b, p) == Without(a, p) + Without(b, p)
  {
    assert p in a + [p] + b by { assert (a + [p] + b)[|a|] == p; }
    WithoutConcat(a + [p], b, p);
    WithoutConcat(a, [p], p);
  }

  /** Toggling a newly chosen pain point twice restores the selection. */
  lemma ToggleTwiceRestores(s: seq<string>, p: string)
    requires p !in s
    ensures Toggle(Toggle(s, p), p) == s
  {
    WithoutConcat(s, [p], p);
    WithoutAbsent(s, p);
  }

  /** A duplicate-free selection stays duplicate-free under toggling. */
  lemma ToggleDistinct(s: seq<string>, p: string)
    requires Distinct(s)
    ensures Distinct(Toggle(s, p))
  {
    if p in s {
      WithoutDistinct(s, p);
    }
  }

  /** `creatorPainPoints.filter((p) => painPoints.includes(p.pain))`. */
  function Shown(catalogue: seq<PainPoint>, selected: seq<string>): (r: seq<PainPoint>)
    ensures forall x :: x in r <==> x in catalogue && x.pain in selected
    ensures |r| <= |catalogue|
  {
    if catalogue == [] then []
    else
      var rest := Shown(catalogue[1..], selected);
      if catalogue[0].pain in selected then [catalogue[0]] + rest else rest
  }

  /** The solutions follow catalogue order: splitting the catalogue splits
      the result in the same place. */
  lemma {:induction false} ShownConcat(a: seq<PainPoint>, b: seq<PainPoint>, selected: seq<string>)
    ensures Shown(a + b, selected) == Shown(a, selected) + Shown(b, selected)
  {
    if a != [] {
      assert (a + b)[1..] == a[1..] + b;
      ShownConcat(a[1..], b, selected);
    } else {
      assert a + b == b;
    }
  }

  /** The order in which pain points were selected does not matter; only
      which ones are selected. */
  lemma {:induction false} ShownIgnoresSelectionOrder(catalogue: seq<PainPoint>, s1: seq<string>, s2: seq<string>)
    requires forall x :: x in s1 <==> x in s2
    ensures Shown(catalogue, s1) == Shown(catalogue, s2)
  {
    if catalogue != [] {
      ShownIgnoresSelectionOrder(catalogue[1..], s1, s2);
    }
  }

  /** Selecting every catalogue pain point, in any order, shows the whole
      catalogue in its own order. */
  lemma {:induction false} ShownAll(catalogue: seq<PainPoint>, selected: seq<string>)
    requires forall i :: 0 <= i < |catalogue| ==> catalogue[i].pain in selected
    ensures Shown(catalogue, selected) == catalogue
  {
    if catalogue != [] {
      ShownAll(catalogue[1..], selected);
    }
  }

  /** The catalogue's pain texts are distinct. */
  lemma CataloguePainsDistinct()
    ensures forall i, j :: 0 <= i < j < |CreatorPainPoints| ==>
              CreatorPainPoints[i].pain != CreatorPainPoints[j].pain
  {
  }

  /** With nothing of the catalogue selected, nothing is shown. */
  lemma {:induction false} ShownNone(catalogue: seq<PainPoint>, selected: seq<string>)
    requires forall k :: 0 <= k < |catalogue| ==> catalogue[k].pain !in selected
    ensures Shown(catalogue, selected) == []
  {
    if catalogue != [] {
      ShownNone(catalogue[1..], selected);
    }
  }

  /** In a catalogue with distinct pain texts, selecting the pain of one
      item shows that item and nothing else. */
  lemma {:induction false} ShownSingle(catalogue: seq<PainPoint>, i: nat)
    requires i < |catalogue|
    requires forall j, k :: 0 <= j < k < |catalogue| ==> catalogue[j].pain != catalogue[k].pain
    ensures Shown(catalogue, [catalogue[i].pain]) == [catalogue[i]]
  {
    var p := catalogue[i].pain;
    var rest := Shown(catalogue[1..], [p]);
    if i == 0 {
      forall k | 0 <= k < |catalogue[1..]| ensures catalogue[1..][k].pain !in [p] {
        assert catalogue[1..][k] == catalogue[k + 1];
      }
      ShownNone(catalogue[1..], [p]);
    } else {
      assert catalogue[1..][i - 1] == catalogue[i];
      ShownSingle(catalogue[1..], i - 1);
      assert catalogue[0].pain != p;
    }
  }

  /** Selecting any one pain point of the page's catalogue, as the first
      toggle from an empty selection does, shows exactly its solution. */
  lemma ToggleOneShowsOne(i: nat)
    requires i < |CreatorPainPoints|
    ensures Shown(CreatorPainPoints, Toggle([], CreatorPainPoints[i].pain)) == [CreatorPainPoints[i]]
  {
    var p := CreatorPainPoints[i].pain;
    assert Toggle([], p) == [p];
    CataloguePainsDistinct();
    ShownSingle(CreatorPainPoints, i);
  }
}
