/** `get_top_doc` of the video reranker: a vote by frequency over the video names found in
    the search metadata, ranked by descending number of hits, ties kept in order of first
    appearance, cut to `top_n`. */
module VoteTally {
  import opened Outcomes
  import opened Seqs

  /** The insertion-ordered dict `hit_score`: its keys in insertion order and the hits per key. */
  datatype HitScore = HitScore(order: seq<string>, hits: map<string, nat>) {

    /** One pass of the counting loop: an unseen name is entered with 0 hits, then incremented. */
    function Add(name: string): HitScore {
      var entered := if name in hits then this else HitScore(order + [name], hits[name := 0]);
      HitScore(entered.order, entered.hits[name := entered.hits[name] + 1])
    }
  }

  /** The counting loop over `videos`. */
  function Tally(videos: seq<string>): (t: HitScore)
    ensures forall x :: x in t.order <==> x in videos
    ensures forall x :: x in t.hits <==> x in videos
  {
    if |videos| == 0 then HitScore([], map[])
    else Tally(videos[..|videos| - 1]).Add(videos[|videos| - 1])
  }

  /** The names of `order` all occur in `videos`, each first appearing after the ones before it. */
  ghost predicate InFirstSeenOrder(videos: seq<string>, order: seq<string>) {
    forall i, j :: 0 <= i < j < |order| ==>
      order[i] in videos && order[j] in videos && FirstIndex(videos, order[i]) < FirstIndex(videos, order[j])
  }

  /** The tally holds each name once, in order of first appearance, with its number of appearances. */
  ghost predicate Tallies(videos: seq<string>, t: HitScore) {
    && NoDuplicates(t.order)
    && (forall x :: x in t.order <==> x in videos)
    && (forall x :: x in t.hits <==> x in videos)
    && (forall x :: x in t.hits ==> t.hits[x] == Count(videos, x))
    && InFirstSeenOrder(videos, t.order)
  }

  /** The keys enter the dict at most once each. */
  lemma {:induction false} TallyDistinct(videos: seq<string>)
    ensures NoDuplicates(Tally(videos).order)
  {
    if |videos| > 0 {
      var p := videos[..|videos| - 1];
      TallyDistinct(p);
    }
  }

  /** Each key's score is its number of appearances. */
  lemma {:induction false} TallyHits(videos: seq<string>)
    ensures forall x :: x in Tally(videos).hits ==> Tally(videos).hits[x] == Count(videos, x)
  {
    if |videos| > 0 {
      var p := videos[..|videos| - 1];
      var x := videos[|videos| - 1];
      assert videos == p + [x];
      assert multiset(videos) == multiset(p) + multiset{x};
      TallyHits(p);
    }
  }

  /** Reading a name already seen keeps the keys and their order. */
  lemma FirstSeenKeep(p: seq<string>, x: string, order: seq<string>)
    requires forall y :: y in order ==> y in p
    requires InFirstSeenOrder(p, order)
    ensures InFirstSeenOrder(p + [x], order)
  {
    var v := p + [x];
    forall i, j | 0 <= i < j < |order|
      ensures order[i] in v && order[j] in v && FirstIndex(v, order[i]) < FirstIndex(v, order[j])
    {
      FirstIndexAppend(p, [x], order[i]);
      FirstIndexAppend(p, [x], order[j]);
    }
  }

  /** Reading a new name appends it after the keys seen so far. */
  lemma FirstSeenNew(p: seq<string>, x: string, order: seq<string>)
    requires forall y :: y in order ==> y in p
    requires x !in p
    requires InFirstSeenOrder(p + [x], order)
    ensures InFirstSeenOrder(p + [x], order + [x])
  {
    var v, u := p + [x], order + [x];
    FirstIndexNew(p, x);
    forall i | 0 <= i < |order|
      ensures u[i] in v && FirstIndex(v, u[i]) < |p|
    {
      assert u[i] == order[i];
      FirstIndexAppend(p, [x], order[i]);
    }
    forall i, j | 0 <= i < j < |u|
      ensures u[i] in v && u[j] in v && FirstIndex(v, u[i]) < FirstIndex(v, u[j])
    {
      if j < |order| {
        assert u[i] == order[i] && u[j] == order[j];
      }
    }
  }

  /** One more name read keeps the keys in first-appearance order, a new name going last. */
  lemma FirstSeenStep(p: seq<string>, x: string, order: seq<string>)
    requires forall y :: y in order <==> y in p
    requires InFirstSeenOrder(p, order)
    ensures InFirstSeenOrder(p + [x], if x in p then order else order + [x])
  {
    FirstSeenKeep(p, x, order);
    if x !in p {
      FirstSeenNew(p, x, order);
    }
  }

  /** Keys are in order of first appearance. */
  lemma {:induction false} TallyFirstSeen(videos: seq<string>)
    ensures InFirstSeenOrder(videos, Tally(videos).order)
  {
    if |videos| > 0 {
      var p := videos[..|videos| - 1];
      var x := videos[|videos| - 1];
      assert videos == p + [x];
      TallyFirstSeen(p);
      var t := Tally(p);
      assert Tally(videos).order == if x in p then t.order else t.order + [x];
      FirstSeenStep(p, x, t.order);
    } else {
      assert Tally(videos).order == [];
    }
  }

  lemma TallyCounts(videos: seq<string>)
    ensures Tallies(videos, Tally(videos))
  {
    TallyDistinct(videos);
    TallyHits(videos);
    TallyFirstSeen(videos);
  }

  /** `a` ranks ahead of `b` among the names of `videos`: more hits, or as many hits and an
      earlier first appearance. */
  ghost predicate Before(videos: seq<string>, a: string, b: string) {
    && a in videos && b in videos
    && (|| Count(videos, a) > Count(videos, b)
        || (Count(videos, a) == Count(videos, b) && FirstIndex(videos, a) < FirstIndex(videos, b)))
  }

  /** `r` is ordered by rank with no ties: every name strictly ahead of each later one. */
  ghost predicate RankedBy(videos: seq<string>, r: seq<string>) {
    forall i, j :: 0 <= i < j < |r| ==> Before(videos, r[i], r[j])
  }

  /** Stable insertion step of the sort by descending hits: `name` goes after every name with
      at least as many hits. */
  function Insert(sorted: seq<string>, name: string, hits: map<string, nat>): (r: seq<string>)
    requires name in hits
    requires forall x :: x in sorted ==> x in hits
    ensures multiset(r) == multiset(sorted) + multiset{name}
  {
    if |sorted| == 0 then [name]
    else
      assert sorted == [sorted[0]] + sorted[1..];
      if hits[sorted[0]] >= hits[name] then [sorted[0]] + Insert(sorted[1..], name, hits)
    else [name] + sorted
  }

  /** `sorted(hit_score.items(), key=lambda item: -item[1])`, as a stable insertion sort of the
      keys in insertion order; the sort compares hit counts only. */
  function SortByHits(order: seq<string>, hits: map<string, nat>): (r: seq<string>)
    requires forall x :: x in order ==> x in hits
    ensures multiset(r) == multiset(order)
  {
    if |order| == 0 then []
    else
      var p := order[..|order| - 1];
      assert order == p + [order[|order| - 1]];
      var r := SortByHits(p, hits);
      assert forall x :: x in r ==> x in multiset(p);
      Insert(r, order[|order| - 1], hits)
  }

  /** `a` sorts ahead of `b` in the stable sort of `order` by descending `hits`. */
  ghost predicate Ahead(order: seq<string>, hits: map<string, nat>, a: string, b: string) {
    && a in order && b in order && a in hits && b in hits
    && (|| hits[a] > hits[b]
        || (hits[a] == hits[b] && FirstIndex(order, a) < FirstIndex(order, b)))
  }

  ghost predicate SortedAhead(order: seq<string>, hits: map<string, nat>, r: seq<string>) {
    forall i, j :: 0 <= i < j < |r| ==> Ahead(order, hits, r[i], r[j])
  }

  /** A name ahead of every element of a sorted sequence can be put in front of it. */
  lemma PrependAhead(order: seq<string>, hits: map<string, nat>, a: string, t: seq<string>)
    requires SortedAhead(order, hits, t)
    requires forall k :: 0 <= k < |t| ==> Ahead(order, hits, a, t[k])
    ensures SortedAhead(order, hits, [a] + t)
  {
    var out := [a] + t;
    forall i, j | 0 <= i < j < |out|
      ensures Ahead(order, hits, out[i], out[j])
    {
      assert out[j] == t[j - 1];
      if i > 0 {
        assert out[i] == t[i - 1];
      }
    }
  }

  /** Inserting a name that comes later in `order` than everything already sorted keeps the
      sort strict: comparing hits alone puts it after its equals. */
  lemma {:induction false} InsertAhead(order: seq<string>, hits: map<string, nat>, r: seq<string>, name: string)
    requires name in order && name in hits
    requires forall x :: x in r ==> x in hits && x in order && FirstIndex(order, x) < FirstIndex(order, name)
    requires SortedAhead(order, hits, r)
    ensures SortedAhead(order, hits, Insert(r, name, hits))
  {
    if |r| > 0 {
      assert r == [r[0]] + r[1..];
      if hits[r[0]] >= hits[name] {
        InsertAhead(order, hits, r[1..], name);
        InsertBehindHead(order, hits, r, name);
      } else {
        InsertInFront(order, hits, r, name);
      }
    }
  }

  /** The head of `r` stays in front of the insertion into the rest when it has at least as
      many hits: it is ahead of the rest and, coming earlier in `order`, of `name`. */
  lemma InsertBehindHead(order: seq<string>, hits: map<string, nat>, r: seq<string>, name: string)
    requires |r| > 0 && name in order && name in hits
    requires forall x :: x in r ==> x in hits && x in order && FirstIndex(order, x) < FirstIndex(order, name)
    requires SortedAhead(order, hits, r)
    requires hits[r[0]] >= hits[name]
    requires SortedAhead(order, hits, Insert(r[1..], name, hits))
    ensures SortedAhead(order, hits, Insert(r, name, hits))
  {
    var tail := Insert(r[1..], name, hits);
    HeadAheadOfRest(order, hits, r);
    assert r[0] in r;
    forall k | 0 <= k < |tail|
      ensures Ahead(order, hits, r[0], tail[k])
    {
      assert tail[k] in multiset(r[1..]) + multiset{name};
      assert tail[k] in r[1..] || tail[k] == name;
    }
    PrependAhead(order, hits, r[0], tail);
  }

  /** The head of a sorted sequence is ahead of every later element. */
  lemma HeadAheadOfRest(order: seq<string>, hits: map<string, nat>, r: seq<string>)
    requires |r| > 0 && SortedAhead(order, hits, r)
    ensures forall y :: y in r[1..] ==> Ahead(order, hits, r[0], y)
  {
    forall y | y in r[1..]
      ensures Ahead(order, hits, r[0], y)
    {
      var m := FirstIndex(r[1..], y);
      assert r[m + 1] == y;
    }
  }

  /** `name` goes in front of `r` when it has more hits than its head. */
  lemma InsertInFront(order: seq<string>, hits: map<string, nat>, r: seq<string>, name: string)
    requires |r| > 0 && name in order && name in hits
    requires forall x :: x in r ==> x in hits && x in order
    requires SortedAhead(order, hits, r)
    requires hits[r[0]] < hits[name]
    ensures SortedAhead(order, hits, Insert(r, name, hits))
  {
    assert r == [r[0]] + r[1..];
    forall k | 0 <= k < |r|
      ensures Ahead(order, hits, name, r[k])
    {
      if k > 0 {
        assert Ahead(order, hits, r[0], r[k]);
      }
    }
    PrependAhead(order, hits, name, r);
  }

  /** The sort puts the names of `order` in strict rank order. */
  lemma {:induction false} SortAheadLemma(order: seq<string>, hits: map<string, nat>)
    requires NoDuplicates(order)
    requires forall x :: x in order ==> x in hits
    ensures SortedAhead(order, hits, SortByHits(order, hits))
  {
    if |order| > 0 {
      var p := order[..|order| - 1];
      var last := order[|order| - 1];
      assert order == p + [last];
      SortAheadLemma(p, hits);
      var r := SortByHits(p, hits);
      assert last !in p by {
        forall k | 0 <= k < |p|
          ensures p[k] != last
        {
          assert p[k] == order[k];
        }
      }
      FirstIndexNew(p, last);
      forall x | x in p
        ensures FirstIndex(order, x) == FirstIndex(p, x)
      {
        FirstIndexAppend(p, [last], x);
      }
      forall x | x in r
        ensures x in hits && x in order && FirstIndex(order, x) < FirstIndex(order, last)
      {
        assert x in multiset(p);
      }
      forall i, j | 0 <= i < j < |r|
        ensures Ahead(order, hits, r[i], r[j])
      {
        assert Ahead(p, hits, r[i], r[j]);
        assert r[i] in multiset(p) && r[j] in multiset(p);
      }
      InsertAhead(order, hits, r, last);
    }
  }

  /** All distinct names of `videos`, best ranked first: the keys of the sorted dict `x`. */
  function Ranking(videos: seq<string>): seq<string> {
    var t := Tally(videos);
    SortByHits(t.order, t.hits)
  }

  /** `get_top_doc(top_n, videos)`: None for None, else the first `top_n` ranked names
      (Python slice semantics, so a negative `top_n` drops names from the end). */
  function GetTopDoc(topN: int, videos: Option<seq<string>>): (r: Option<seq<string>>)
    ensures r.None? <==> videos.None?
    ensures r.Some? ==> forall x :: x in r.value ==> x in videos.value
  {
    match videos
    case None => None
    case Some(v) =>
      var top := SliceTo(Ranking(v), topN);
      assert forall x :: x in top ==> x in multiset(Ranking(v));
      Some(top)
  }

  /** The ranking holds no name twice. */
  lemma RankingDistinct(videos: seq<string>)
    ensures NoDuplicates(Ranking(videos))
  {
    var t := Tally(videos);
    var r := Ranking(videos);
    TallyDistinct(videos);
    SortAheadLemma(t.order, t.hits);
    forall i, j | 0 <= i < j < |r|
      ensures r[i] != r[j]
    {
      assert Ahead(t.order, t.hits, r[i], r[j]);
    }
  }

  /** The ranking is a permutation of the tally's keys. */
  lemma RankingPermutesKeys(videos: seq<string>)
    ensures multiset(Ranking(videos)) == multiset(Tally(videos).order)
    ensures forall x :: x in Ranking(videos) <==> x in videos
  {
    var t := Tally(videos);
    var r := Ranking(videos);
    forall x
      ensures x in r <==> x in videos
    {
      assert x in r <==> x in multiset(t.order);
    }
  }

  /** The ranking holds exactly the names of `videos`, each once. */
  lemma RankingElems(videos: seq<string>)
    ensures NoDuplicates(Ranking(videos))
    ensures forall x :: x in Ranking(videos) <==> x in videos
    ensures |Ranking(videos)| == |Elems(videos)|
  {
    var t := Tally(videos);
    var r := Ranking(videos);
    RankingDistinct(videos);
    RankingPermutesKeys(videos);
    assert |r| == |t.order| by {
      assert |multiset(r)| == |multiset(t.order)|;
    }
    TallyDistinct(videos);
    DistinctCard(t.order);
    assert Elems(t.order) == Elems(videos);
  }

  /** The ranking orders names strictly by descending count, then by first appearance. */
  lemma RankingRanked(videos: seq<string>)
    ensures RankedBy(videos, Ranking(videos))
  {
    var t := Tally(videos);
    var r := Ranking(videos);
    TallyHits(videos);
    TallyFirstSeen(videos);
    TallyDistinct(videos);
    SortAheadLemma(t.order, t.hits);
    forall i, j | 0 <= i < j < |r|
      ensures Before(videos, r[i], r[j])
    {
      assert Ahead(t.order, t.hits, r[i], r[j]);
      var a, b := FirstIndex(t.order, r[i]), FirstIndex(t.order, r[j]);
      assert a < b ==> FirstIndex(videos, t.order[a]) < FirstIndex(videos, t.order[b]);
    }
  }

  /** The sort by hits of the tally ranks the names of `videos`: every distinct name once,
      strictly by descending count and then by first appearance. */
  lemma RankingSpec(videos: seq<string>)
    ensures NoDuplicates(Ranking(videos))
    ensures forall x :: x in Ranking(videos) <==> x in videos
    ensures RankedBy(videos, Ranking(videos))
    ensures |Ranking(videos)| == |Elems(videos)|
  {
    RankingElems(videos);
    RankingRanked(videos);
  }

  /** Ranking is a strict order: no name ranks ahead of a name that ranks ahead of it. */
  lemma BeforeAsymmetric(videos: seq<string>)
    ensures forall a, b :: Before(videos, a, b) ==> !Before(videos, b, a)
  {
  }

  /** Strict rank order leaves no freedom: two duplicate-free sequences of the same names,
      both ranked, are equal. So the insertion sort gives the same dict order as any stable
      sort by descending hits, Python's `sorted` included. */
  lemma {:induction false} RankedUnique(videos: seq<string>, s: seq<string>, q: seq<string>)
    requires NoDuplicates(s) && NoDuplicates(q)
    requires forall x :: x in s <==> x in q
    requires RankedBy(videos, s) && RankedBy(videos, q)
    ensures s == q
    decreases |s|
  {
    assert |s| > 0 ==> s[0] in q;
    assert |q| > 0 ==> q[0] in s;
    if |s| > 0 {
      var k := FirstIndex(q, s[0]);
      var m := FirstIndex(s, q[0]);
      var s0, q0 := s[0], q[0];
      BeforeAsymmetric(videos);
      assert k > 0 ==> Before(videos, q0, s0);
      assert m > 0 ==> Before(videos, s0, q0);
      assert s[0] == q[0];
      var s', q' := s[1..], q[1..];
      forall x
        ensures x in s' <==> x in q'
      {
        if x in s' {
          var i :| 0 <= i < |s'| && s'[i] == x;
          assert s[i + 1] == x;
          assert x in q && x != q[0];
          var j := FirstIndex(q, x);
          assert q'[j - 1] == x;
        }
        if x in q' {
          var i :| 0 <= i < |q'| && q'[i] == x;
          assert q[i + 1] == x;
          assert x in s && x != s[0];
          var j := FirstIndex(s, x);
          assert s'[j - 1] == x;
        }
      }
      RankedUnique(videos, s', q');
      assert s == [s[0]] + s' && q == [q[0]] + q';
    }
  }

  /** `get_top_doc` on a list: distinct names of the input, as many as `top_n` asks for
      (with Python's slice semantics) or as exist. */
  lemma TopDocsShape(topN: int, videos: seq<string>)
    ensures GetTopDoc(topN, Some(videos)).Some?
    ensures var r := GetTopDoc(topN, Some(videos)).value;
      && NoDuplicates(r)
      && (forall x :: x in r ==> x in videos)
      && |r| == (if topN >= 0 then Min(topN, |Elems(videos)|) else Max(0, |Elems(videos)| + topN))
  {
    RankingSpec(videos);
  }

  /** Along the result, counts never increase, and equal counts keep the order of first
      appearance in the input. */
  lemma TopDocsOrdered(topN: int, videos: seq<string>)
    ensures var r := GetTopDoc(topN, Some(videos)).value;
      && (forall i, j :: 0 <= i < j < |r| ==> Count(videos, r[i]) >= Count(videos, r[j]))
      && (forall i, j :: 0 <= i < j < |r| && Count(videos, r[i]) == Count(videos, r[j]) ==>
            r[i] in videos && r[j] in videos && FirstIndex(videos, r[i]) < FirstIndex(videos, r[j]))
  {
    RankingSpec(videos);
    var r := GetTopDoc(topN, Some(videos)).value;
    var full := Ranking(videos);
    forall i, j | 0 <= i < j < |r|
      ensures Before(videos, r[i], r[j])
    {
      assert r[i] == full[i] && r[j] == full[j];
    }
  }

  /** In a strict ranking of all the names, a prefix ranks ahead of every name it leaves out. */
  lemma PrefixBeatsRest(videos: seq<string>, full: seq<string>, n: nat)
    requires RankedBy(videos, full) && forall x :: x in full <==> x in videos
    requires n <= |full|
    ensures forall x, y :: x in full[..n] && y in videos && y !in full[..n] ==> Before(videos, x, y)
  {
    var r := full[..n];
    forall x, y | x in r && y in videos && y !in r
      ensures Before(videos, x, y)
    {
      var i := FirstIndex(r, x);
      var j := FirstIndex(full, y);
      assert full[i] == x;
      forall k | 0 <= k < n
        ensures full[k] != y
      {
        assert full[k] == r[k];
      }
      assert i < n <= j;
    }
  }

  /** The head of a strict ranking of all the names has the highest count. */
  lemma HeadHasMaxCount(videos: seq<string>, full: seq<string>)
    requires RankedBy(videos, full) && forall x :: x in full <==> x in videos
    requires |full| > 0
    ensures forall y :: y in videos ==> Count(videos, full[0]) >= Count(videos, y)
  {
    forall y | y in videos
      ensures Count(videos, full[0]) >= Count(videos, y)
    {
      var j := FirstIndex(full, y);
      if j > 0 {
        assert Before(videos, full[0], full[j]);
      }
    }
  }

  /** The names kept are the best ranked: each one ranks ahead of every input name left out,
      and the first has the highest count of all. */
  lemma TopDocsAreBest(topN: int, videos: seq<string>)
    ensures var r := GetTopDoc(topN, Some(videos)).value;
      && (forall x, y :: x in r && y in videos && y !in r ==> Before(videos, x, y))
      && (|r| > 0 ==> forall y :: y in videos ==> Count(videos, r[0]) >= Count(videos, y))
  {
    RankingSpec(videos);
    var r := GetTopDoc(topN, Some(videos)).value;
    var full := Ranking(videos);
    assert full[..|r|] == r;
    PrefixBeatsRest(videos, full, |r|);
    if |r| > 0 {
      HeadHasMaxCount(videos, full);
      assert r[0] == full[0];
    }
  }

  /** The winner, the first name returned, does not depend on `top_n` as long as it is kept. */
  lemma WinnerIndependentOfCutoff(a: int, b: int, videos: seq<string>)
    requires |GetTopDoc(a, Some(videos)).value| > 0
    requires |GetTopDoc(b, Some(videos)).value| > 0
    ensures GetTopDoc(a, Some(videos)).value[0] == GetTopDoc(b, Some(videos)).value[0]
  {
  }
}
