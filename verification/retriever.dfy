/** The text steps of schema retrieval: which record-type names a query
    is about, which retrieved snippets to keep, and the context string
    handed to the prompt. The embedding search itself is not modelled:
    its result, a list of snippet texts, is a parameter. */
module Retriever {
  import opened Text

  const ClusterType := "AeCpuCluster"
  const ChipletType := "AeChipletType"
  const NetworkType := "AeNetworkTopologyType"

  /** The type names in the order the filter considers them. */
  const KeywordOrder: seq<string> := [ClusterType, ChipletType, NetworkType]

  predicate MentionsCluster(q: string) {
    IsSubstring("cluster", q)
  }

  predicate MentionsChiplet(q: string) {
    IsSubstring("chiplet", q) || IsSubstring("gpu", q) || IsSubstring("npu", q)
  }

  predicate MentionsNetwork(q: string) {
    IsSubstring("network", q)
  }

  /** `_keyword_filter`: on the lowercased query, the cluster type for
      "cluster", the chiplet type for "chiplet", "gpu" or "npu", the
      network type for "network", in that order; with no match, the
      cluster and chiplet types. */
  function KeywordFilter(query: string): (ks: seq<string>)
    ensures 0 < |ks| <= 3
    ensures IsSubsequence(ks, KeywordOrder)
    ensures forall k | k in ks :: k in KeywordOrder
    ensures var q := Lower(query);
      var none := !MentionsCluster(q) && !MentionsChiplet(q) && !MentionsNetwork(q);
      && (ClusterType in ks <==> MentionsCluster(q) || none)
      && (ChipletType in ks <==> MentionsChiplet(q) || none)
      && (NetworkType in ks <==> MentionsNetwork(q))
  {
    var q := Lower(query);
    var c := if MentionsCluster(q) then [ClusterType] else [];
    var h := if MentionsChiplet(q) then [ChipletType] else [];
    var n := if MentionsNetwork(q) then [NetworkType] else [];
    var found := c + h + n;
    KeywordsOrdered(c, h, n);
    if found == [] then
      assert [ClusterType, ChipletType] == KeywordOrder[..2];
      PrefixIsSubsequence(KeywordOrder, 2);
      [ClusterType, ChipletType]
    else found
  }

  lemma KeywordsOrdered(c: seq<string>, h: seq<string>, n: seq<string>)
    requires c == [] || c == [ClusterType]
    requires h == [] || h == [ChipletType]
    requires n == [] || n == [NetworkType]
    ensures IsSubsequence(c + h + n, KeywordOrder)
  {
    var ys := KeywordOrder;
    assert ys[1..][1..][1..] == [];
    assert IsSubsequence(n, ys[1..][1..]);
    assert IsSubsequence(h + n, ys[1..]) by {
      if h == [] {
        assert h + n == n;
        SubsequenceOfTail(n, ys[1..]);
      } else {
        assert (h + n)[1..] == n;
      }
    }
    if c == [] {
      assert c + h + n == h + n;
      SubsequenceOfTail(h + n, ys);
    } else {
      assert (c + h + n)[1..] == h + n;
    }
  }

  lemma {:induction false} PrefixIsSubsequence<T>(xs: seq<T>, n: nat)
    requires n <= |xs|
    ensures IsSubsequence(xs[..n], xs)
  {
    if n > 0 {
      assert xs[..n][1..] == xs[1..][..n - 1];
      PrefixIsSubsequence(xs[1..], n - 1);
    }
  }

  /** The snippet mentions one of the keywords, case-sensitively. */
  predicate MentionsAny(keywords: seq<string>, doc: string) {
    exists i | 0 <= i < |keywords| :: IsSubstring(keywords[i], doc)
  }

  /** The snippets that mention a keyword, in retrieval order, or all of
      them when none does. */
  function KeptDocuments(docs: seq<string>, keywords: seq<string>): (r: seq<string>)
    ensures IsSubsequence(r, docs)
    ensures |docs| > 0 ==> |r| > 0
    ensures (exists d | d in docs :: MentionsAny(keywords, d)) ==>
      && (forall d | d in r :: MentionsAny(keywords, d))
      && (forall d | d in docs && MentionsAny(keywords, d) :: d in r)
      && (forall d :: multiset(r)[d] == if MentionsAny(keywords, d) then multiset(docs)[d] else 0)
    ensures (forall d | d in docs :: !MentionsAny(keywords, d)) ==> r == docs
  {
    var filtered := Filter(docs, d => MentionsAny(keywords, d));
    FilterIsSubsequence(docs, d => MentionsAny(keywords, d));
    FilterCounts(docs, d => MentionsAny(keywords, d));
    if filtered == [] then
      SubsequenceOfItself(docs);
      docs
    else
      assert filtered[0] in filtered;
      filtered
  }

  lemma {:induction false} SubsequenceOfItself<T>(xs: seq<T>)
    ensures IsSubsequence(xs, xs)
  {
    if |xs| > 0 {
      SubsequenceOfItself(xs[1..]);
    }
  }

  const Separator := "\n---\n"

  function Header(keywords: seq<string>): string {
    "Relevant schema snippets (" + Join(keywords, ", ") + "):\n"
  }

  /** `retrieve` after the embedding search: a header naming the keywords,
      then at most five kept snippets joined by a separator line. */
  function Retrieve(query: string, docs: seq<string>): (r: string)
    ensures StartsWith(r, "Relevant schema snippets (")
    ensures forall i | 0 <= i < |KeywordFilter(query)| :: IsSubstring(KeywordFilter(query)[i], r)
    ensures var kept := KeptDocuments(docs, KeywordFilter(query));
      forall i | 0 <= i < |kept| && i < 5 :: IsSubstring(kept[i], r)
  {
    var keywords := KeywordFilter(query);
    var kept := KeptDocuments(docs, keywords);
    var body := Join(Take(kept, 5), Separator);
    HeaderNamesKeywords(keywords, body);
    BodyShowsKept(kept, Header(keywords));
    Header(keywords) + body
  }

  lemma HeaderNamesKeywords(keywords: seq<string>, body: string)
    ensures StartsWith(Header(keywords) + body, "Relevant schema snippets (")
    ensures forall i | 0 <= i < |keywords| :: IsSubstring(keywords[i], Header(keywords) + body)
  {
    var pre := "Relevant schema snippets (";
    var joined := Join(keywords, ", ");
    var post := "):\n" + body;
    assert Header(keywords) + body == pre + joined + post;
    assert (pre + joined + post)[..|pre|] == pre;
    forall i | 0 <= i < |keywords| ensures IsSubstring(keywords[i], pre + joined + post) {
      JoinContains(keywords, ", ", i);
      SubstringOfConcat(keywords[i], pre, joined, post);
    }
  }

  lemma BodyShowsKept(kept: seq<string>, h: string)
    ensures forall i | 0 <= i < |kept| && i < 5 :: IsSubstring(kept[i], h + Join(Take(kept, 5), Separator))
  {
    var shown := Take(kept, 5);
    var body := Join(shown, Separator);
    assert h + body == h + body + "";
    forall i | 0 <= i < |kept| && i < 5 ensures IsSubstring(kept[i], h + body + "") {
      assert shown[i] == kept[i];
      JoinContains(shown, Separator, i);
      SubstringOfConcat(kept[i], h, body, "");
    }
  }

  /** Every joined item occurs in the joined text. */
  lemma {:induction false} JoinContains(xs: seq<string>, sep: string, i: nat)
    requires i < |xs|
    ensures IsSubstring(xs[i], Join(xs, sep))
  {
    if |xs| == 1 {
      SubstringOfItself(xs[0]);
      SubstringOfConcat(xs[0], "", xs[0], "");
      assert "" + xs[0] + "" == xs[0];
    } else if i == 0 {
      SubstringOfItself(xs[0]);
      SubstringOfConcat(xs[0], "", xs[0], sep + Join(xs[1..], sep));
      assert "" + xs[0] + (sep + Join(xs[1..], sep)) == Join(xs, sep);
    } else {
      JoinContains(xs[1..], sep, i - 1);
      SubstringOfConcat(xs[i], xs[0] + sep, Join(xs[1..], sep), "");
      assert xs[0] + sep + Join(xs[1..], sep) + "" == Join(xs, sep);
    }
  }
}
