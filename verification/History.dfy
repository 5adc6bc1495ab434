/** Scrollback: the newest-first query against the plain sorted conversation, and
    paging backwards by the oldest timestamp seen. */
module History {
  import opened Text
  import opened Sorting
  import opened Messages

  function Last<T>(s: seq<T>, n: nat): seq<T> {
    if |s| <= n then s else s[|s| - n..]
  }

  /** The reference: the whole conversation, oldest first. */
  function Conversation(table: seq<Row>, conversation: string, before: Option<int>): (keys: seq<(int, nat)>)
    ensures Elements(keys) == ConversationKeys(table, conversation, before)
    ensures Ascending(keys, KeyLeq)
  {
    KeysTotallyOrdered();
    Sort(ConversationKeys(table, conversation, before), KeyLeq)
  }

  lemma DescendingIsReversed(keys: set<(int, nat)>)
    requires TotalOrder(KeyLeq) && TotalOrder(KeyGeq)
    ensures Reverse(Sort(keys, KeyGeq)) == Sort(keys, KeyLeq)
  {
    var down := Sort(keys, KeyGeq);
    var up := Reverse(down);
    forall x ensures x in up <==> x in down {
      if x in down {
        var i :| 0 <= i < |down| && down[i] == x;
        assert up[|down| - 1 - i] == x;
      }
    }
    assert Elements(up) == Elements(down);
    AscendingIsUnique(up, Sort(keys, KeyLeq), KeyLeq);
  }

  /** The fast form is right: it yields the last `limit` (clamped to 1..200) of the
      conversation in (timestamp, rowid) order. */
  lemma HistoryIsTheTail(table: seq<Row>, conversation: string, before: Option<int>, limit: int)
    ensures HistoryKeys(table, conversation, before, limit)
         == Last(Conversation(table, conversation, before), ClampLimit(limit))
    ensures 1 <= ClampLimit(limit) <= 200 && (1 <= limit <= 200 ==> ClampLimit(limit) == limit)
  {
    KeysTotallyOrdered();
    DescendingIsReversed(ConversationKeys(table, conversation, before));
    ReversedPrefix(Sort(ConversationKeys(table, conversation, before), KeyGeq), ClampLimit(limit));
  }

  lemma ReversedPrefix<T>(s: seq<T>, n: nat)
    ensures Reverse(if |s| <= n then s else s[..n]) == Last(Reverse(s), n)
  {}

  /** Fewer than `limit` (clamped) rows that a request asks for come after row i. */
  predicate Recent(table: seq<Row>, conversation: string, before: Option<int>, limit: int, i: nat)
    requires i < |table|
  {
    && (table[i].ts, i) in ConversationKeys(table, conversation, before)
    && |After(ConversationKeys(table, conversation, before), (table[i].ts, i))| < ClampLimit(limit)
  }

  function After(keys: set<(int, nat)>, key: (int, nat)): set<(int, nat)> {
    set k | k in keys && k != key && KeyLeq(key, k)
  }

  lemma {:induction false} AscendingSize(s: seq<(int, nat)>)
    requires Ascending(s, KeyLeq)
    ensures |Elements(s)| == |s|
  {
    if s != [] {
      var last := |s| - 1;
      AscendingSize(s[..last]);
      assert s == s[..last] + [s[last]];
      assert Elements(s) == Elements(s[..last]) + {s[last]};
    }
  }

  lemma AfterIsRest(whole: seq<(int, nat)>, p: nat)
    requires Ascending(whole, KeyLeq) && p < |whole|
    ensures |After(Elements(whole), whole[p])| == |whole| - p - 1
  {
    var rest := whole[p + 1..];
    forall k ensures k in After(Elements(whole), whole[p]) <==> k in Elements(rest) {
      if k in After(Elements(whole), whole[p]) {
        var j :| 0 <= j < |whole| && whole[j] == k;
        assert j > p;
        assert rest[j - p - 1] == k;
      }
      if k in rest {
        var j :| 0 <= j < |rest| && rest[j] == k;
        assert whole[p + 1 + j] == k;
      }
    }
    assert After(Elements(whole), whole[p]) == Elements(rest);
    AscendingSize(rest);
  }

  /** Which rows an answer holds: exactly those with fewer than `limit` after them. */
  lemma ShownIffRecent(table: seq<Row>, conversation: string, before: Option<int>, limit: int, i: nat)
    requires i < |table|
    ensures (table[i].ts, i) in HistoryKeys(table, conversation, before, limit)
       <==> Recent(table, conversation, before, limit, i)
  {
    HistoryIsTheTail(table, conversation, before, limit);
    var whole, key, n := Conversation(table, conversation, before), (table[i].ts, i), ClampLimit(limit);
    if key in ConversationKeys(table, conversation, before) {
      assert key in Elements(whole);
      var p :| 0 <= p < |whole| && whole[p] == key;
      AfterIsRest(whole, p);
      TailHolds(whole, n, p);
    }
  }

  lemma TailHolds(whole: seq<(int, nat)>, n: nat, p: nat)
    requires Ascending(whole, KeyLeq) && p < |whole|
    ensures whole[p] in Last(whole, n) <==> |whole| - p - 1 < n
  {
    var tail := Last(whole, n);
    var cut := |whole| - |tail|;
    if p >= cut { assert tail[p - cut] == whole[p]; }
    if whole[p] in tail {
      var j :| 0 <= j < |tail| && tail[j] == whole[p];
      assert whole[cut + j] == whole[p];
    }
  }

  // ------------------------------------------------------------------- paging

  /** Asking again with the oldest timestamp seen, until a page comes back empty. */
  function PageBack(table: seq<Row>, conversation: string, before: Option<int>, limit: int): seq<(int, nat)>
    decreases |ConversationKeys(table, conversation, before)|
  {
    var page := HistoryKeys(table, conversation, before, limit);
    if page == [] then [] else
      EarlierIsFewer(table, conversation, before, page[0]);
      PageBack(table, conversation, Some(page[0].0), limit) + page
  }

  lemma EarlierIsFewer(table: seq<Row>, conversation: string, before: Option<int>, k: (int, nat))
    requires k in ConversationKeys(table, conversation, before)
    ensures ConversationKeys(table, conversation, Some(k.0)) < ConversationKeys(table, conversation, before)
    ensures |ConversationKeys(table, conversation, Some(k.0))| < |ConversationKeys(table, conversation, before)|
  {
    var all := ConversationKeys(table, conversation, before);
    var fewer := ConversationKeys(table, conversation, Some(k.0));
    assert fewer <= all && k !in fewer;
    SubsetIsSmaller(fewer, all);
  }

  lemma {:induction false} SubsetIsSmaller<T>(a: set<T>, b: set<T>)
    requires a < b
    ensures |a| < |b|
  {
    if a != {} {
      var x :| x in a;
      SubsetIsSmaller(a - {x}, b - {x});
    }
  }

  /** A page holds every row of its oldest timestamp. */
  ghost predicate HoldsOldest(all: set<(int, nat)>, page: seq<(int, nat)>)
    requires page != []
  {
    forall k | k in all && k.0 == page[0].0 :: k in page
  }

  /** No page boundary falls between two rows of one timestamp. */
  ghost predicate NoTieStraddles(table: seq<Row>, conversation: string, before: Option<int>, limit: int)
    decreases |ConversationKeys(table, conversation, before)|
  {
    var page := HistoryKeys(table, conversation, before, limit);
    page == [] || (
      EarlierIsFewer(table, conversation, before, page[0]);
      && HoldsOldest(ConversationKeys(table, conversation, before), page)
      && NoTieStraddles(table, conversation, Some(page[0].0), limit))
  }

  lemma PageFacts(table: seq<Row>, conversation: string, before: Option<int>, limit: int)
    ensures var page, all := HistoryKeys(table, conversation, before, limit), ConversationKeys(table, conversation, before);
      && Ascending(page, KeyLeq)
      && (page == [] <==> all == {})
      && (forall k | k in all && k !in page :: page != [] && KeyLeq(k, page[0]))
  {
    HistoryIsTheTail(table, conversation, before, limit);
    var whole := Conversation(table, conversation, before);
    var page := HistoryKeys(table, conversation, before, limit);
    assert whole != [] ==> whole[0] in Elements(whole);
    forall k | k in Elements(whole) && k !in page ensures page != [] && KeyLeq(k, page[0]) {
      var i :| 0 <= i < |whole| && whole[i] == k;
      var cut := |whole| - |page|;
      assert page == whole[cut..];
      assert forall j | cut <= j < |whole| :: page[j - cut] == whole[j];
    }
  }

  /** Always: the pages are disjoint and descending, so nothing is shown twice or
      out of order, whatever the ties. */
  lemma {:induction false} PagesAreDisjointAndDescending(table: seq<Row>, conversation: string, before: Option<int>, limit: int)
    ensures Ascending(PageBack(table, conversation, before, limit), KeyLeq)
    ensures Elements(PageBack(table, conversation, before, limit)) <= ConversationKeys(table, conversation, before)
    decreases |ConversationKeys(table, conversation, before)|
  {
    PageFacts(table, conversation, before, limit);
    var page := HistoryKeys(table, conversation, before, limit);
    if page != [] {
      EarlierIsFewer(table, conversation, before, page[0]);
      PagesAreDisjointAndDescending(table, conversation, Some(page[0].0), limit);
      var older := PageBack(table, conversation, Some(page[0].0), limit);
      forall k | k in older ensures k.0 < page[0].0 {
        assert k in Elements(older);
      }
      forall k | k in page ensures KeyLeq(page[0], k) {
        var i :| 0 <= i < |page| && page[i] == k;
      }
      AscendingConcat(older, page, KeyLeq);
    }
  }

  lemma {:induction false} CompleteWithoutTies(table: seq<Row>, conversation: string, before: Option<int>, limit: int)
    ensures PageBack(table, conversation, before, limit) == Conversation(table, conversation, before)
       <==> NoTieStraddles(table, conversation, before, limit)
    decreases |ConversationKeys(table, conversation, before)|
  {
    PageCompleteness(table, conversation, before, limit);
    var page := HistoryKeys(table, conversation, before, limit);
    PageFacts(table, conversation, before, limit);
    if page != [] {
      EarlierIsFewer(table, conversation, before, page[0]);
      var t := Some(page[0].0);
      CompleteWithoutTies(table, conversation, t, limit);
      PageCompleteness(table, conversation, t, limit);
      OlderPages(table, conversation, before, limit);
    }
  }

  lemma {:induction false} OlderPages(table: seq<Row>, conversation: string, before: Option<int>, limit: int)
    requires HistoryKeys(table, conversation, before, limit) != []
    ensures var page := HistoryKeys(table, conversation, before, limit);
      var t, all := Some(page[0].0), ConversationKeys(table, conversation, before);
      (forall k | k in all :: k in PageBack(table, conversation, before, limit))
        <==> (forall k | k in ConversationKeys(table, conversation, t) :: k in PageBack(table, conversation, t, limit))
             && HoldsOldest(all, page)
  {
    var page := HistoryKeys(table, conversation, before, limit);
    var t := Some(page[0].0);
    PageFacts(table, conversation, before, limit);
    EarlierIsFewer(table, conversation, before, page[0]);
    PagesAreDisjointAndDescending(table, conversation, t, limit);
    OnePageComplete(ConversationKeys(table, conversation, before), ConversationKeys(table, conversation, t),
                    PageBack(table, conversation, t, limit), page);
  }

  /** One page and the older pages hold everything iff the older pages hold all that
      is strictly earlier and the page holds every row of its oldest timestamp. */
  lemma OnePageComplete(all: set<(int, nat)>, earlier: set<(int, nat)>, older: seq<(int, nat)>, page: seq<(int, nat)>)
    requires page != [] && Ascending(page, KeyLeq)
    requires forall k | k in all && k !in page :: KeyLeq(k, page[0])
    requires earlier == set k | k in all && k.0 < page[0].0
    requires Elements(older) <= earlier
    ensures (forall k | k in all :: k in older + page)
       <==> (forall k | k in earlier :: k in older) && HoldsOldest(all, page)
  {
    assert forall k | k in older :: k in Elements(older);
    assert forall k | k in page :: k.0 >= page[0].0;
    assert forall k :: k in older + page <==> k in older || k in page;
  }

  /** The pages are the conversation as soon as they hold all its rows. */
  lemma PageCompleteness(table: seq<Row>, conversation: string, before: Option<int>, limit: int)
    ensures PageBack(table, conversation, before, limit) == Conversation(table, conversation, before)
       <==> forall k | k in ConversationKeys(table, conversation, before) :: k in PageBack(table, conversation, before, limit)
  {
    KeysTotallyOrdered();
    PagesAreDisjointAndDescending(table, conversation, before, limit);
    var pages := PageBack(table, conversation, before, limit);
    if forall k | k in ConversationKeys(table, conversation, before) :: k in pages {
      assert Elements(pages) == ConversationKeys(table, conversation, before);
      AscendingIsUnique(pages, Conversation(table, conversation, before), KeyLeq);
    } else {
      assert Elements(Conversation(table, conversation, before)) == ConversationKeys(table, conversation, before);
    }
  }

  // -------------------------------------------------- ties, told from the rows alone

  /** Where the k-th page from the end begins, in pages of n. */
  function Cut(length: nat, n: nat, k: nat): int {
    length - k * n
  }

  /** The rows before and after a place have the same timestamp. */
  predicate TieAt(whole: seq<(int, nat)>, c: int) {
    0 < c < |whole| && whole[c - 1].0 == whole[c].0
  }

  /** Counting back from the newest row in steps of n never stops inside a timestamp. */
  ghost predicate NoTieCut(whole: seq<(int, nat)>, n: nat) {
    forall k: nat | k > 0 :: !TieAt(whole, Cut(|whole|, n, k))
  }

  lemma ShortHasNoCut(whole: seq<(int, nat)>, n: nat)
    requires |whole| <= n
    ensures NoTieCut(whole, n)
  {
    forall k: nat | k > 0 ensures Cut(|whole|, n, k) <= 0 { assert k * n >= n; }
  }

  lemma CutsShift(whole: seq<(int, nat)>, n: nat)
    requires 0 < n < |whole|
    ensures NoTieCut(whole, n) <==> !TieAt(whole, |whole| - n) && NoTieCut(whole[..|whole| - n], n)
  {
    var older := whole[..|whole| - n];
    forall k: nat | k > 0 ensures Cut(|older|, n, k) == Cut(|whole|, n, k + 1) && Cut(|older|, n, k) < |older|
    {
      assert (k + 1) * n == k * n + n && k * n > 0;
    }
    assert Cut(|whole|, n, 1) == |whole| - n;
    if NoTieCut(whole, n) {
      forall k: nat | k > 0 ensures !TieAt(older, Cut(|older|, n, k)) { assert !TieAt(whole, Cut(|whole|, n, k + 1)); }
    }
    if !TieAt(whole, |whole| - n) && NoTieCut(older, n) {
      forall k: nat | k > 0 ensures !TieAt(whole, Cut(|whole|, n, k)) {
        if k > 1 { assert !TieAt(older, Cut(|older|, n, k - 1)); }
      }
    }
  }

  /** Where there is no tie, what stands before a place is what is earlier. */
  lemma PrefixIsEarlier(whole: seq<(int, nat)>, c: nat, x: (int, nat))
    requires Ascending(whole, KeyLeq) && c < |whole| && !TieAt(whole, c)
    ensures x in whole[..c] <==> x in whole && x.0 < whole[c].0
  {
    if x in whole[..c] {
      var i :| 0 <= i < c && whole[i] == x;
      assert i < c - 1 ==> KeyLeq(whole[i], whole[c - 1]);
      assert KeyLeq(whole[c - 1], whole[c]);
    } else if x in whole {
      var i :| 0 <= i < |whole| && whole[i] == x;
      assert i > c ==> KeyLeq(whole[c], whole[i]);
    }
  }

  lemma EarlierIsPrefix(table: seq<Row>, conversation: string, before: Option<int>, c: nat)
    requires var whole := Conversation(table, conversation, before); c < |whole| && !TieAt(whole, c)
    ensures var whole := Conversation(table, conversation, before);
      Conversation(table, conversation, Some(whole[c].0)) == whole[..c]
  {
    var whole := Conversation(table, conversation, before);
    var earlier := Conversation(table, conversation, Some(whole[c].0));
    KeysTotallyOrdered();
    forall x ensures x in Elements(whole[..c]) <==> x in Elements(earlier) {
      PrefixIsEarlier(whole, c, x);
      assert whole[c] in Elements(whole);
      assert x in whole <==> x in Elements(whole);
      assert x in Elements(earlier) <==> x in Elements(whole) && x.0 < whole[c].0;
    }
    AscendingIsUnique(whole[..c], earlier, KeyLeq);
  }

  /** A page that starts where there is no tie holds every row of its oldest timestamp. */
  lemma WholeTimestamps(whole: seq<(int, nat)>, c: nat)
    requires Ascending(whole, KeyLeq) && c < |whole|
    ensures HoldsOldest(Elements(whole), whole[c..]) <==> !TieAt(whole, c)
  {
    if TieAt(whole, c) {
      assert whole[c - 1] !in whole[c..] && whole[c - 1] in Elements(whole);
    } else {
      forall k | k in Elements(whole) && k.0 == whole[c].0 ensures k in whole[c..] {
        PrefixIsEarlier(whole, c, k);
        assert whole == whole[..c] + whole[c..];
      }
    }
  }

  /** Ties at the first cut, and at the cuts of what is before it. */
  lemma FirstCut(whole: seq<(int, nat)>, n: nat)
    requires whole != [] && n > 0
    ensures var c := |whole| - |Last(whole, n)|;
      && c < |whole| && Last(whole, n) == whole[c..]
      && (NoTieCut(whole, n) <==> !TieAt(whole, c) && NoTieCut(whole[..c], n))
  {
    if |whole| <= n {
      ShortHasNoCut(whole, n);
      ShortHasNoCut(whole[..0], n);
    } else {
      CutsShift(whole, n);
    }
  }

  lemma {:induction false} NoTieStraddlesIff(table: seq<Row>, conversation: string, before: Option<int>, limit: int)
    ensures NoTieStraddles(table, conversation, before, limit)
       <==> NoTieCut(Conversation(table, conversation, before), ClampLimit(limit))
    decreases |ConversationKeys(table, conversation, before)|
  {
    HistoryIsTheTail(table, conversation, before, limit);
    var whole, n := Conversation(table, conversation, before), ClampLimit(limit);
    var page := HistoryKeys(table, conversation, before, limit);
    if whole == [] {
      ShortHasNoCut(whole, n);
    } else {
      var c := |whole| - |page|;
      FirstCut(whole, n);
      assert page[0] == whole[c];
      WholeTimestamps(whole, c);
      EarlierIsFewer(table, conversation, before, page[0]);
      if !TieAt(whole, c) {
        EarlierIsPrefix(table, conversation, before, c);
        NoTieStraddlesIff(table, conversation, Some(page[0].0), limit);
      }
    }
  }

  /** Paging back yields the whole conversation exactly once, in order, precisely when
      counting back from its newest row in steps of the limit never stops between two
      rows of one timestamp. */
  lemma PagingIsComplete(table: seq<Row>, conversation: string, before: Option<int>, limit: int)
    ensures PageBack(table, conversation, before, limit) == Conversation(table, conversation, before)
       <==> NoTieCut(Conversation(table, conversation, before), ClampLimit(limit))
  {
    CompleteWithoutTies(table, conversation, before, limit);
    NoTieStraddlesIff(table, conversation, before, limit);
  }

  /** Two rows of one timestamp read one at a time: the older is never shown. */
  lemma TieLosesARow(a: Row, b: Row)
    requires a.conversation == b.conversation && a.ts == b.ts
    ensures (a.ts, 0) in Conversation([a, b], a.conversation, None)
    ensures PageBack([a, b], a.conversation, None, 1) == [(b.ts, 1)]
  {
    var table := [a, b];
    var whole: seq<(int, nat)> := [(a.ts, 0), (b.ts, 1)];
    KeysTotallyOrdered();
    forall k ensures k in whole <==> k in ConversationKeys(table, a.conversation, None) {
      if k in ConversationKeys(table, a.conversation, None) { assert k.1 == 0 || k.1 == 1; }
      assert table[0] == a && table[1] == b;
    }
    assert Elements(whole) == ConversationKeys(table, a.conversation, None);
    AscendingIsUnique(whole, Conversation(table, a.conversation, None), KeyLeq);
    HistoryIsTheTail(table, a.conversation, None, 1);
    assert ConversationKeys(table, a.conversation, Some(b.ts)) == {};
    PageFacts(table, a.conversation, Some(b.ts), 1);
    assert PageBack(table, a.conversation, Some(b.ts), 1) == [];
  }
}
