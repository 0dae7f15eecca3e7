/**
 * The extractive summariser of the summary screen: every sentence gets an
 * importance score, the three most important are kept, put back in the order
 * of the text, trimmed, given a full stop and joined with single spaces.
 *
 * Importance is kept as an integer ten times the screen's value
 * (0.3 per word, 2 for a discourse keyword, 1 for position), which keeps
 * every comparison the screen makes.
 */
module Summary {
  import opened Seqs
  import opened Text

  /** The discourse markers: therefore, hence, in conclusion, important, key point, to sum up. */
  const DiscourseKeywords: seq<string> := ["따라서", "그러므로", "결론적으로", "중요한", "핵심", "요약하면"]

  /** At most this many sentences are kept. */
  const SummaryLength: nat := 3

  /** `keywords.some(k => sentence.includes(k))`. */
  predicate IncludesAny(sentence: string, keywords: seq<string>) {
    keywords != [] && (Includes(sentence, keywords[0]) || IncludesAny(sentence, keywords[1..]))
  }

  lemma {:induction false} IncludesAnyIff(sentence: string, keywords: seq<string>)
    ensures IncludesAny(sentence, keywords) <==> exists k :: 0 <= k < |keywords| && Includes(sentence, keywords[k])
  {
    if keywords != [] {
      IncludesAnyIff(sentence, keywords[1..]);
      if IncludesAny(sentence, keywords[1..]) {
        var k :| 0 <= k < |keywords| - 1 && Includes(sentence, keywords[1..][k]);
        assert Includes(sentence, keywords[k + 1]);
      }
      if exists k :: 0 <= k < |keywords| && Includes(sentence, keywords[k]) {
        var k :| 0 <= k < |keywords| && Includes(sentence, keywords[k]);
        if k > 0 { assert Includes(sentence, keywords[1..][k - 1]); }
      }
    }
  }

  predicate HasDiscourseKeyword(sentence: string) {
    IncludesAny(sentence, DiscourseKeywords)
  }

  /**
   * `calculateImportance`, scaled by ten: the screen's value is
   * 0.3 * wordCount + (2 if a discourse keyword occurs) + 1.
   */
  function Importance(sentence: string): (score: int)
    ensures score as real == 10.0 * (0.3 * (|Words(sentence)| as real) + (if HasDiscourseKeyword(sentence) then 2.0 else 0.0) + 1.0)
    ensures score >= 13
  {
    3 * |Words(sentence)| + (if HasDiscourseKeyword(sentence) then 20 else 0) + 10
  }

  /** With the keyword flag fixed, importance rises strictly with the word count. */
  lemma ImportanceByWordCount(s: string, t: string)
    requires HasDiscourseKeyword(s) == HasDiscourseKeyword(t)
    ensures Importance(s) < Importance(t) <==> |Words(s)| < |Words(t)|
  {
  }

  // ---------------------------------------------------------------- stable sorting of positions by a key

  /** Every element of `s` is a position of `key` (of the keys, or of the sentences). */
  predicate Keyed<T>(s: seq<nat>, key: seq<T>) {
    forall i :: 0 <= i < |s| ==> s[i] < |key|
  }

  ghost predicate SortedBy(s: seq<nat>, key: seq<int>)
    requires Keyed(s, key)
  {
    forall i, j :: 0 <= i < j < |s| ==> key[s[i]] <= key[s[j]]
  }

  /** Sorted by key, and elements with equal keys in ascending order. */
  ghost predicate StableBy(s: seq<nat>, key: seq<int>)
    requires Keyed(s, key)
  {
    forall i, j :: 0 <= i < j < |s| ==> key[s[i]] < key[s[j]] || (key[s[i]] == key[s[j]] && s[i] < s[j])
  }

  /** Puts `x` in front of the first element whose key is not smaller. */
  function Insert(x: nat, ys: seq<nat>, key: seq<int>): (r: seq<nat>)
    requires x < |key| && Keyed(ys, key)
    ensures Keyed(r, key) && multiset(r) == multiset(ys) + multiset{x}
    ensures SortedBy(ys, key) ==> SortedBy(r, key)
  {
    if ys == [] || key[x] <= key[ys[0]] then [x] + ys
    else
      var rest := Insert(x, ys[1..], key);
      assert ys == [ys[0]] + ys[1..];
      InsertSortedStep(x, ys, key, rest);
      [ys[0]] + rest
  }

  /** The step of Insert that puts `ys[0]` in front of the rest. */
  lemma InsertSortedStep(x: nat, ys: seq<nat>, key: seq<int>, rest: seq<nat>)
    requires x < |key| && Keyed(ys, key) && Keyed(rest, key) && ys != [] && key[ys[0]] < key[x]
    requires multiset(rest) == multiset(ys[1..]) + multiset{x}
    requires SortedBy(ys, key) ==> SortedBy(rest, key)
    ensures SortedBy(ys, key) ==> SortedBy([ys[0]] + rest, key)
  {
    if SortedBy(ys, key) {
      var r := [ys[0]] + rest;
      forall i, j | 0 <= i < j < |r| ensures key[r[i]] <= key[r[j]] {
        if i == 0 {
          assert r[j] == rest[j - 1] && rest[j - 1] in multiset(rest);
          if rest[j - 1] != x {
            assert rest[j - 1] in multiset(ys[1..]);
            var m :| 0 <= m < |ys[1..]| && ys[1..][m] == rest[j - 1];
            assert ys[m + 1] == r[j];
          }
        } else {
          assert r[i] == rest[i - 1] && r[j] == rest[j - 1];
        }
      }
    }
  }

  /**
   * JavaScript's `Array.prototype.sort`, which is stable, with a comparator
   * that orders by `key`; modelled as an insertion sort.
   */
  function SortBy(xs: seq<nat>, key: seq<int>): (r: seq<nat>)
    requires Keyed(xs, key)
    ensures Keyed(r, key) && multiset(r) == multiset(xs) && SortedBy(r, key)
  {
    if xs == [] then []
    else
      assert xs == [xs[0]] + xs[1..];
      Insert(xs[0], SortBy(xs[1..], key), key)
  }

  lemma {:induction false} InsertStable(x: nat, ys: seq<nat>, key: seq<int>)
    requires x < |key| && Keyed(ys, key) && StableBy(ys, key)
    requires forall j :: 0 <= j < |ys| ==> x < ys[j]
    ensures StableBy(Insert(x, ys, key), key)
  {
    if ys == [] || key[x] <= key[ys[0]] {
      InsertStableFront(x, ys, key);
    } else {
      InsertStable(x, ys[1..], key);
      InsertStableStep(x, ys, key, Insert(x, ys[1..], key));
    }
  }

  /** `x` goes in front: its key is at most the smallest, and it is the smaller position. */
  lemma InsertStableFront(x: nat, ys: seq<nat>, key: seq<int>)
    requires x < |key| && Keyed(ys, key) && StableBy(ys, key)
    requires forall j :: 0 <= j < |ys| ==> x < ys[j]
    requires ys == [] || key[x] <= key[ys[0]]
    ensures StableBy([x] + ys, key)
  {
    var r := [x] + ys;
    forall i, j | 0 <= i < j < |r|
      ensures key[r[i]] < key[r[j]] || (key[r[i]] == key[r[j]] && r[i] < r[j])
    {
      if i == 0 {
        assert r[j] == ys[j - 1];
        if j > 1 { assert key[ys[0]] <= key[ys[j - 1]]; }
      } else {
        assert r[i] == ys[i - 1] && r[j] == ys[j - 1];
      }
    }
  }

  /** `ys[0]` stays in front of the rest, into which `x` was inserted. */
  lemma InsertStableStep(x: nat, ys: seq<nat>, key: seq<int>, rest: seq<nat>)
    requires x < |key| && Keyed(ys, key) && Keyed(rest, key) && StableBy(ys, key)
    requires ys != [] && key[ys[0]] < key[x]
    requires multiset(rest) == multiset(ys[1..]) + multiset{x} && StableBy(rest, key)
    ensures StableBy([ys[0]] + rest, key)
  {
    var r := [ys[0]] + rest;
    forall i, j | 0 <= i < j < |r|
      ensures key[r[i]] < key[r[j]] || (key[r[i]] == key[r[j]] && r[i] < r[j])
    {
      if i == 0 {
        assert r[j] == rest[j - 1] && rest[j - 1] in multiset(rest);
        if rest[j - 1] != x {
          assert rest[j - 1] in multiset(ys[1..]);
          var m :| 0 <= m < |ys[1..]| && ys[1..][m] == rest[j - 1];
          assert ys[m + 1] == r[j];
        }
      } else {
        assert r[i] == rest[i - 1] && r[j] == rest[j - 1];
      }
    }
  }

  /** Sorting positions given in ascending order keeps equal keys in ascending order: the sort is stable. */
  lemma {:induction false} SortByStable(xs: seq<nat>, key: seq<int>)
    requires Keyed(xs, key) && Increasing(xs)
    ensures StableBy(SortBy(xs, key), key)
  {
    if xs != [] {
      SortByStable(xs[1..], key);
      var sorted := SortBy(xs[1..], key);
      forall j | 0 <= j < |sorted| ensures xs[0] < sorted[j] {
        assert sorted[j] in multiset(xs[1..]);
      }
      InsertStable(xs[0], sorted, key);
    }
  }

  // ---------------------------------------------------------------- selecting the sentences

  /** The sort key of `(a, b) => b.importance - a.importance`: descending importance. */
  function ImportanceKeys(sentences: seq<string>): (key: seq<int>)
    ensures |key| == |sentences|
  {
    seq(|sentences|, i requires 0 <= i < |sentences| => -Importance(sentences[i]))
  }

  /** The positions of the sentences, most important first, ties in text order. */
  function Ranked(sentences: seq<string>): (r: seq<nat>)
    ensures |r| == |sentences| && Keyed(r, sentences)
    ensures multiset(r) == multiset(Range(|sentences|))
  {
    var key := ImportanceKeys(sentences);
    var r := SortBy(Range(|sentences|), key);
    assert |r| == |multiset(r)| == |multiset(Range(|sentences|))|;
    r
  }

  /** `.slice(0, Math.min(3, sentences.length))`: the positions of the sentences kept. */
  function Top(sentences: seq<string>): (r: seq<nat>)
    ensures |r| == Min(SummaryLength, |sentences|) && Keyed(r, sentences)
  {
    Ranked(sentences)[..Min(SummaryLength, |sentences|)]
  }

  /** The kept sentences are the most important ones; among equally important sentences the earlier ones are kept. */
  lemma TopIsMostImportant(sentences: seq<string>, i: nat, j: nat)
    requires i in Top(sentences) && j < |sentences| && j !in Top(sentences)
    ensures Importance(sentences[i]) > Importance(sentences[j])
         || (Importance(sentences[i]) == Importance(sentences[j]) && i < j)
  {
    var key := ImportanceKeys(sentences);
    var ranked := Ranked(sentences);
    var k := Min(SummaryLength, |sentences|);
    SortByStable(Range(|sentences|), key);
    var p :| 0 <= p < k && ranked[p] == i;
    assert j in multiset(Range(|sentences|)) by { assert Range(|sentences|)[j] == j; }
    assert j in multiset(ranked);
    var q :| 0 <= q < |ranked| && ranked[q] == j;
  }

  /** No sentence is kept twice. */
  lemma TopDistinct(sentences: seq<string>)
    ensures Distinct(Top(sentences))
  {
    SortByStable(Range(|sentences|), ImportanceKeys(sentences));
  }

  /** The kept positions in the order of the text. */
  function InTextOrder(sentences: seq<string>): (r: seq<nat>)
    ensures Keyed(r, sentences) && multiset(r) == multiset(Top(sentences))
    ensures forall i, j :: 0 <= i < j < |r| ==> r[i] <= r[j]
  {
    SortBy(Top(sentences), Range(|sentences|))
  }

  /** Put back in text order, the kept positions ascend strictly: the summary follows the text, not the ranking. */
  lemma InTextOrderIncreasing(sentences: seq<string>)
    ensures Increasing(InTextOrder(sentences))
    ensures |InTextOrder(sentences)| == Min(SummaryLength, |sentences|)
  {
    var r := InTextOrder(sentences);
    assert |r| == |multiset(r)| == |multiset(Top(sentences))|;
    TopDistinct(sentences);
    PermutationKeepsDistinct(Top(sentences), r);
    forall i, j | 0 <= i < j < |r| ensures r[i] < r[j] {
      assert r[i] <= r[j] && r[i] != r[j];
    }
  }

  // ---------------------------------------------------------------- the summary text

  /** The kept sentences in the given order, trimmed. */
  function Kept(sentences: seq<string>, order: seq<nat>): (r: seq<string>)
    requires Keyed(order, sentences)
    ensures |r| == |order|
  {
    seq(|order|, k requires 0 <= k < |order| => Trim(sentences[order[k]]))
  }

  /** `.map(s => s + '.')`. */
  function Punctuate(ts: seq<string>): (r: seq<string>)
    ensures |r| == |ts|
  {
    seq(|ts|, k requires 0 <= k < |ts| => ts[k] + ".")
  }

  function SummaryText(sentences: seq<string>, order: seq<nat>): string
    requires Keyed(order, sentences)
  {
    Join(Punctuate(Kept(sentences, order)), " ")
  }

  /** A summary text is empty exactly when no sentence is kept. */
  lemma SummaryTextEmpty(sentences: seq<string>, order: seq<nat>)
    requires Keyed(order, sentences)
    ensures SummaryText(sentences, order) == "" <==> order == []
  {
    if order != [] {
      var ps := Punctuate(Kept(sentences, order));
      assert ps[0] == Kept(sentences, order)[0] + ".";
      JoinLength(ps, " ");
    }
  }

  /** The summary of a text, with the kept sentences in text order: empty exactly when the text has no sentence. */
  function Summarize(text: string): (r: string)
    ensures r == "" <==> Sentences(text) == []
  {
    var sentences := Sentences(text);
    InTextOrderIncreasing(sentences);
    SummaryTextEmpty(sentences, InTextOrder(sentences));
    SummaryText(sentences, InTextOrder(sentences))
  }

  /** The kept sentences, each after the first preceded by the space that joined it. */
  function Leading(ts: seq<string>): (r: seq<string>)
    ensures |r| == |ts|
  {
    seq(|ts|, k requires 0 <= k < |ts| => if k == 0 then ts[0] else " " + ts[k])
  }

  /**
   * Splitting a summary into sentences gives back the kept sentences, trimmed
   * (each after the first with the joining space in front): every sentence of the
   * summary is a sentence of the text.
   */
  lemma SummarySentences(text: string)
    ensures var sentences := Sentences(text);
      Sentences(Summarize(text)) == Leading(Kept(sentences, InTextOrder(sentences)))
  {
    var sentences := Sentences(text);
    var order := InTextOrder(sentences);
    var ts := Kept(sentences, order);
    forall k | 0 <= k < |ts| ensures ts[k] != [] && NoDelim(ts[k], Terminator) && !IsSpace(ts[k][0]) {
      TrimKeepsNoDelim(sentences[order[k]]);
    }
    SentencesOfPunctuated(ts);
  }

  /**
   * The same for the summary the screen builds: splitting it gives back the
   * `min(3, n)` kept sentences, trimmed, in the `indexOf` order.
   */
  lemma SummaryAsWrittenSentences(text: string)
    ensures var sentences := Sentences(text);
      && Sentences(SummarizeAsWritten(text)) == Leading(Kept(sentences, AsWrittenOrder(sentences)))
      && |Sentences(SummarizeAsWritten(text))| == Min(SummaryLength, |sentences|)
  {
    var sentences := Sentences(text);
    var order := AsWrittenOrder(sentences);
    var ts := Kept(sentences, order);
    forall k | 0 <= k < |ts| ensures ts[k] != [] && NoDelim(ts[k], Terminator) && !IsSpace(ts[k][0]) {
      TrimKeepsNoDelim(sentences[order[k]]);
    }
    SentencesOfPunctuated(ts);
    assert |order| == |multiset(order)| == |multiset(Top(sentences))| == |Top(sentences)|;
  }

  lemma SentencesOfPunctuated(ts: seq<string>)
    requires forall k :: 0 <= k < |ts| ==> ts[k] != [] && NoDelim(ts[k], Terminator) && !IsSpace(ts[k][0])
    ensures Sentences(Join(Punctuate(ts), " ")) == Leading(ts)
  {
    if ts != [] {
      SplitPunctuated("", ts);
      assert "" + Join(Punctuate(ts), " ") == Join(Punctuate(ts), " ");
      assert "" + ts[0] == ts[0];
      NonBlankLeading(ts);
    } else {
      NoSentences();
    }
  }

  lemma TrimKeepsNoDelim(s: string)
    requires !IsBlank(s) && NoDelim(s, Terminator)
    ensures Trim(s) != [] && NoDelim(Trim(s), Terminator) && !IsSpace(Trim(s)[0])
  {
    var n := LeadingSpaces(s);
    TrimSlice(s);
    forall k | 0 <= k < |Trim(s)| ensures !IsTerminator(Trim(s)[k]) {
      assert Trim(s)[k] == s[n + k];
    }
  }

  /** Splitting `lead + "t0. t1. ... tn."` on terminators. */
  lemma {:induction false} SplitPunctuated(lead: string, ts: seq<string>)
    requires |ts| >= 1 && (lead == "" || lead == " ")
    requires forall k :: 0 <= k < |ts| ==> ts[k] != [] && NoDelim(ts[k], Terminator) && !IsSpace(ts[k][0])
    ensures Split(lead + Join(Punctuate(ts), " "), Terminator) == [lead + ts[0]] + Leading(ts)[1..] + [""]
    decreases |ts|
  {
    assert NoDelim(lead + ts[0], Terminator) by {
      assert forall k :: 0 <= k < |lead| ==> (lead + ts[0])[k] == ' ';
    }
    if |ts| == 1 {
      SplitLastPunctuated(lead, ts[0]);
    } else {
      SplitPunctuated(" ", ts[1..]);
      SplitNextPunctuated(lead, ts);
    }
  }

  lemma SplitLastPunctuated(lead: string, t: string)
    requires NoDelim(lead + t, Terminator)
    ensures Split(lead + Join(Punctuate([t]), " "), Terminator) == [lead + t] + Leading([t])[1..] + [""]
  {
    assert lead + Join(Punctuate([t]), " ") == (lead + t) + ['.'] + "";
    SplitAfterPiece(lead + t, '.', "", Terminator);
  }

  lemma SplitNextPunctuated(lead: string, ts: seq<string>)
    requires |ts| >= 2 && NoDelim(lead + ts[0], Terminator)
    requires Split(" " + Join(Punctuate(ts[1..]), " "), Terminator) == [" " + ts[1]] + Leading(ts[1..])[1..] + [""]
    ensures Split(lead + Join(Punctuate(ts), " "), Terminator) == [lead + ts[0]] + Leading(ts)[1..] + [""]
  {
    var rest := " " + Join(Punctuate(ts[1..]), " ");
    PunctuatedHead(lead, ts);
    SplitAfterPiece(lead + ts[0], '.', rest, Terminator);
    LeadingTail(ts);
  }

  /** The first sentence, its full stop, then the rest joined with a space before it. */
  lemma PunctuatedHead(lead: string, ts: seq<string>)
    requires |ts| >= 2
    ensures lead + Join(Punctuate(ts), " ") == (lead + ts[0]) + ['.'] + (" " + Join(Punctuate(ts[1..]), " "))
  {
    var ps := Punctuate(ts);
    assert ps[1..] == Punctuate(ts[1..]);
    assert Join(ps, " ") == ps[0] + " " + Join(ps[1..], " ");
    assert ps[0] == ts[0] + ".";
  }

  lemma LeadingTail(ts: seq<string>)
    requires |ts| >= 2
    ensures Leading(ts)[1..] == [" " + ts[1]] + Leading(ts[1..])[1..]
  {
  }

  lemma {:induction false} NonBlankLeading(ts: seq<string>)
    requires |ts| >= 1 && forall k :: 0 <= k < |ts| ==> ts[k] != [] && !IsSpace(ts[k][0])
    ensures NonBlank([ts[0]] + Leading(ts)[1..] + [""]) == Leading(ts)
  {
    var ls := Leading(ts);
    forall k | 0 <= k < |ls| ensures !IsBlank(ls[k]) {
      BlankIffAllSpace(ls[k]);
      assert !IsSpace(ls[k][if k == 0 then 0 else 1]);
    }
    BlankIffAllSpace("");
    NonBlankKeepsAll(ls);
    assert [ts[0]] + ls[1..] == ls;
  }

  lemma {:induction false} NonBlankKeepsAll(ls: seq<string>)
    requires forall k :: 0 <= k < |ls| ==> !IsBlank(ls[k])
    requires IsBlank("")
    ensures NonBlank(ls + [""]) == ls
  {
    if ls != [] {
      assert (ls + [""])[1..] == ls[1..] + [""];
      NonBlankKeepsAll(ls[1..]);
    }
  }

  // ---------------------------------------------------------------- reordering as the screen writes it

  /** `sentences.indexOf(x)` for a sentence that occurs: its first position. */
  function IndexIn(sentences: seq<string>, x: string): (r: nat)
    requires x in sentences
    ensures r < |sentences| && sentences[r] == x
    ensures forall k :: 0 <= k < r ==> sentences[k] != x
  {
    if sentences[0] == x then 0 else 1 + IndexIn(sentences[1..], x)
  }

  /** The sort key of `(a, b) => sentences.indexOf(a.text) - sentences.indexOf(b.text)`. */
  function FirstIndexKeys(sentences: seq<string>): (key: seq<int>)
    ensures |key| == |sentences|
  {
    seq(|sentences|, i requires 0 <= i < |sentences| => IndexIn(sentences, sentences[i]))
  }

  /** The kept positions reordered by the first position of their text, as the screen does. */
  function AsWrittenOrder(sentences: seq<string>): (r: seq<nat>)
    ensures Keyed(r, sentences) && multiset(r) == multiset(Top(sentences))
    ensures forall i, j :: 0 <= i < j < |r| ==> IndexIn(sentences, sentences[r[i]]) <= IndexIn(sentences, sentences[r[j]])
  {
    SortBy(Top(sentences), FirstIndexKeys(sentences))
  }

  /** The summary the screen builds, with the `indexOf` reordering: empty exactly when the text has no sentence. */
  function SummarizeAsWritten(text: string): (r: string)
    ensures r == "" <==> Sentences(text) == []
  {
    var sentences := Sentences(text);
    var order := AsWrittenOrder(sentences);
    assert |order| == |multiset(order)| == |multiset(Top(sentences))| == |Top(sentences)|;
    SummaryTextEmpty(sentences, order);
    SummaryText(sentences, order)
  }

  /** When no sentence repeats, `indexOf` is the position, and the screen's summary is the text-order summary. */
  lemma AsWrittenAgreesWhenDistinct(text: string)
    requires Distinct(Sentences(text))
    ensures SummarizeAsWritten(text) == Summarize(text)
  {
    var sentences := Sentences(text);
    forall i | 0 <= i < |sentences| ensures IndexIn(sentences, sentences[i]) == i {
      var r := IndexIn(sentences, sentences[i]);
      assert !(r < i) && !(i < r);
    }
    assert FirstIndexKeys(sentences) == Range(|sentences|);
  }

  /** The text " x. y. x.", for any two letters `x` and `y`. */
  function RepeatText(x: char, y: char): string {
    [' ', x, '.', ' ', y, '.', ' ', x, '.']
  }

  /** The three sentences of " x. y. x.". */
  lemma RepeatSentences(x: char, y: char)
    requires Letter(x) && Letter(y)
    ensures Sentences(RepeatText(x, y)) == [[' ', x], [' ', y], [' ', x]]
  {
    var sentences := [[' ', x], [' ', y], [' ', x]];
    var pieces := sentences + [""];
    assert pieces[1..] == [[' ', y], [' ', x], ""] && pieces[1..][1..] == [[' ', x], ""];
    assert pieces[1..][1..][1..] == [""];
    calc {
      Join(pieces, ".");
      [' ', x] + "." + Join(pieces[1..], ".");
      [' ', x] + "." + ([' ', y] + "." + Join(pieces[1..][1..], "."));
      [' ', x] + "." + ([' ', y] + "." + ([' ', x] + "." + Join(pieces[1..][1..][1..], ".")));
      [' ', x] + "." + ([' ', y] + "." + ([' ', x] + "." + ""));
      RepeatText(x, y);
    }
    SplitJoin(pieces, '.', Terminator);
    forall k | 0 <= k < 3 ensures !IsBlank(sentences[k]) {
      BlankIffAllSpace(sentences[k]);
      assert !IsSpace(sentences[k][1]);
    }
    BlankIffAllSpace("");
    NonBlankKeepsAll(sentences);
  }

  /** With three sentences all are kept. */
  lemma ThreeTop(sentences: seq<string>)
    requires |sentences| == 3
    ensures multiset(Top(sentences)) == multiset{0, 1, 2}
  {
    assert Top(sentences) == Ranked(sentences);
    assert Range(3) == [0, 1, 2];
  }

  lemma ThreeTextOrder(sentences: seq<string>)
    requires |sentences| == 3
    ensures InTextOrder(sentences) == [0, 1, 2]
  {
    ThreeTop(sentences);
    InTextOrderIncreasing(sentences);
    IncreasingThree(InTextOrder(sentences));
  }

  lemma IncreasingThree(r: seq<nat>)
    requires |r| == 3 && Increasing(r) && multiset(r) == multiset{0, 1, 2}
    ensures r == [0, 1, 2]
  {
    forall k | 0 <= k < 3 ensures r[k] <= 2 {
      assert r[k] in multiset(r);
    }
    assert r[0] < r[1] < r[2];
  }

  /** Three sentences whose first and last are the same: the middle one comes out last. */
  lemma ThreeAsWrittenOrder(sentences: seq<string>)
    requires |sentences| == 3 && sentences[0] == sentences[2] && sentences[1] != sentences[0]
    ensures var written := AsWrittenOrder(sentences);
      && |written| == 3 && written[2] == 1 && written[0] != 1 && written[1] != 1
      && sentences[written[0]] == sentences[0] && sentences[written[1]] == sentences[0]
  {
    ThreeTop(sentences);
    RepeatFirstIndexKeys(sentences);
    MiddleKeyLast(AsWrittenOrder(sentences), FirstIndexKeys(sentences));
  }

  /** `indexOf` on three sentences whose first and last are the same. */
  lemma RepeatFirstIndexKeys(sentences: seq<string>)
    requires |sentences| == 3 && sentences[0] == sentences[2] && sentences[1] != sentences[0]
    ensures var key := FirstIndexKeys(sentences); key[0] == 0 && key[1] == 1 && key[2] == 0
  {
    assert IndexIn(sentences, sentences[0]) == 0;
    assert IndexIn(sentences, sentences[1]) == 1;
  }

  /** Sorting 0, 1, 2 by the keys 0, 1, 0 puts 1 last. */
  lemma MiddleKeyLast(w: seq<nat>, key: seq<int>)
    requires |key| == 3 && key[0] == 0 && key[1] == 1 && key[2] == 0
    requires multiset(w) == multiset{0, 1, 2} && Keyed(w, key) && SortedBy(w, key)
    ensures |w| == 3 && w[2] == 1 && w[0] != 1 && w[1] != 1
  {
    assert |w| == |multiset(w)| == 3;
    assert w == [w[0], w[1], w[2]];
    assert multiset(w) == multiset{w[0], w[1], w[2]};
    assert key[w[0]] <= key[w[2]] && key[w[1]] <= key[w[2]];
  }

  /** The kept sentences of a three-element order, one by one. */
  lemma KeptOfThree(sentences: seq<string>, order: seq<nat>)
    requires Keyed(order, sentences) && |order| == 3
    ensures Kept(sentences, order) == [Trim(sentences[order[0]]), Trim(sentences[order[1]]), Trim(sentences[order[2]])]
  {
    var kept := Kept(sentences, order);
    assert kept[0] == Trim(sentences[order[0]]);
    assert kept[1] == Trim(sentences[order[1]]);
    assert kept[2] == Trim(sentences[order[2]]);
  }

  /** Three sentences whose first and last are the same, kept in text order. */
  lemma ThreeKeptInTextOrder(sentences: seq<string>)
    requires |sentences| == 3 && sentences[0] == sentences[2]
    ensures Kept(sentences, InTextOrder(sentences)) == [Trim(sentences[0]), Trim(sentences[1]), Trim(sentences[0])]
  {
    ThreeTextOrder(sentences);
    KeptOfThree(sentences, InTextOrder(sentences));
  }

  /** Three sentences whose first and last are the same, kept as the screen orders them. */
  lemma ThreeKeptAsWritten(sentences: seq<string>)
    requires |sentences| == 3 && sentences[0] == sentences[2] && sentences[1] != sentences[0]
    ensures Kept(sentences, AsWrittenOrder(sentences)) == [Trim(sentences[0]), Trim(sentences[0]), Trim(sentences[1])]
  {
    ThreeAsWrittenOrder(sentences);
    KeptOfThree(sentences, AsWrittenOrder(sentences));
  }

  /** `[a, b, c].map(s => s + '.').join(' ')`. */
  lemma PunctuateJoinThree(a: string, b: string, c: string)
    ensures Join(Punctuate([a, b, c]), " ") == a + ". " + b + ". " + c + "."
  {
    var ps := Punctuate([a, b, c]);
    assert ps == [a + ".", b + ".", c + "."];
    assert ps[1..] == [b + ".", c + "."] && ps[1..][1..] == [c + "."];
    calc {
      Join(ps, " ");
      (a + ".") + " " + Join(ps[1..], " ");
      (a + ".") + " " + ((b + ".") + " " + Join(ps[1..][1..], " "));
      (a + ".") + " " + ((b + ".") + " " + (c + "."));
      { assert "." + " " == ". "; }
      a + ". " + b + ". " + c + ".";
    }
  }

  /**
   * A repeated sentence breaks text order: in " x. y. x." all three sentences
   * are kept, `indexOf` gives both copies of " x" the key 0, and the screen
   * emits "x. x. y." where the text reads "x. y. x.".
   */
  lemma AsWrittenOutOfOrder(x: char, y: char)
    requires Letter(x) && Letter(y) && x != y
    ensures SummarizeAsWritten(RepeatText(x, y)) == [x] + ". " + [x] + ". " + [y] + "."
    ensures Summarize(RepeatText(x, y)) == [x] + ". " + [y] + ". " + [x] + "."
  {
    RepeatAsWritten(x, y);
    RepeatInTextOrder(x, y);
  }

  lemma RepeatAsWritten(x: char, y: char)
    requires Letter(x) && Letter(y) && x != y
    ensures SummarizeAsWritten(RepeatText(x, y)) == [x] + ". " + [x] + ". " + [y] + "."
  {
    var sentences := [[' ', x], [' ', y], [' ', x]];
    RepeatSentences(x, y);
    RepeatKept(x, y);
    SummaryTextThree(sentences, AsWrittenOrder(sentences), [x], [x], [y]);
  }

  lemma RepeatInTextOrder(x: char, y: char)
    requires Letter(x) && Letter(y) && x != y
    ensures Summarize(RepeatText(x, y)) == [x] + ". " + [y] + ". " + [x] + "."
  {
    var sentences := [[' ', x], [' ', y], [' ', x]];
    RepeatSentences(x, y);
    RepeatKept(x, y);
    SummaryTextThree(sentences, InTextOrder(sentences), [x], [y], [x]);
  }

  /** The summary text of three kept sentences. */
  lemma SummaryTextThree(sentences: seq<string>, order: seq<nat>, a: string, b: string, c: string)
    requires Keyed(order, sentences) && Kept(sentences, order) == [a, b, c]
    ensures SummaryText(sentences, order) == a + ". " + b + ". " + c + "."
  {
    PunctuateJoinThree(a, b, c);
  }

  /** The sentences of " x. y. x." kept in either order. */
  lemma RepeatKept(x: char, y: char)
    requires Letter(x) && Letter(y) && x != y
    ensures var sentences := [[' ', x], [' ', y], [' ', x]];
      && Kept(sentences, InTextOrder(sentences)) == [[x], [y], [x]]
      && Kept(sentences, AsWrittenOrder(sentences)) == [[x], [x], [y]]
  {
    var sentences := [[' ', x], [' ', y], [' ', x]];
    ThreeKeptInTextOrder(sentences);
    ThreeKeptAsWritten(sentences);
    TrimSpaceThen(x);
    TrimSpaceThen(y);
  }

  /** Trimming a space followed by one other character. */
  lemma TrimSpaceThen(c: char)
    requires !IsSpace(c)
    ensures Trim([' ', c]) == [c]
  {
    assert [' ', c][1..] == [c];
    assert DropLeading([c], Space) == [c];
    assert DropLeading([' ', c], Space) == [c];
    assert TrimEnd([c]) == [c];
  }
}
