/**
 * The fill-in-the-blank question generator shared by the summary screen and
 * the quiz screen: key words, the options of a question, the first pass over
 * the sentences and the random backfill.
 *
 * `Math.random()` is a nondeterministic choice (`:|`): a method states what
 * holds for every choice it could make.
 */
module Questions {
  import opened Seqs
  import opened Text

  /** The particles never taken as key words: i, ga, eul, reul, eun, neun, ui, e, eseo, euro, wa, gwa. */
  const StopWords: seq<string> := ["이", "가", "을", "를", "은", "는", "의", "에", "에서", "으로", "와", "과"]

  /** What replaces the answer in the prompt. */
  const Blank: string := "_____"

  /** A question offers at most this many options. */
  const MaxOptions: nat := 4

  /** The backfill stops at this many questions. */
  const MaxQuestions: nat := 5

  // ---------------------------------------------------------------- key words

  /** `word.length > 2 && !stopWords.includes(word)`. */
  predicate IsKeyWord(w: string) {
    Utf16Length(w) > 2 && w !in StopWords
  }

  /** Every stop word is at most two UTF-16 units long. */
  lemma StopWordsShort()
    ensures forall w :: w in StopWords ==> Utf16Length(w) <= 2
  {
    forall w | w in StopWords ensures Utf16Length(w) <= 2 {
      assert |w| <= 2;
    }
  }

  /** The stop list never changes the filter: a key word is just a word longer than two units. */
  lemma KeyWordIffLong(w: string)
    ensures IsKeyWord(w) <==> Utf16Length(w) > 2
  {
    StopWordsShort();
  }

  /** `words.filter(word => word.length > 2 && !stopWords.includes(word))`. */
  function KeyWords(words: seq<string>): (r: seq<string>)
    ensures forall k :: 0 <= k < |r| ==> IsKeyWord(r[k]) && r[k] in words
    ensures forall w :: w in words && IsKeyWord(w) ==> w in r
  {
    if words == [] then []
    else if IsKeyWord(words[0]) then [words[0]] + KeyWords(words[1..])
    else KeyWords(words[1..])
  }

  /** The first key word is the first word that is a key word. */
  lemma {:induction false} FirstKeyWord(words: seq<string>) returns (i: nat)
    requires KeyWords(words) != []
    ensures i < |words| && words[i] == KeyWords(words)[0]
    ensures forall j :: 0 <= j < i ==> !IsKeyWord(words[j])
  {
    if IsKeyWord(words[0]) {
      i := 0;
    } else {
      assert KeyWords(words) == KeyWords(words[1..]);
      var j := FirstKeyWord(words[1..]);
      i := j + 1;
      forall m | 0 < m < i ensures !IsKeyWord(words[m]) {
        assert words[m] == words[1..][m - 1];
      }
    }
  }

  /** `words.filter(word => word.length > 2 && word !== answer && !stopWords.includes(word))`. */
  function Distractors(answer: string, words: seq<string>): (r: seq<string>)
    ensures forall k :: 0 <= k < |r| ==> IsKeyWord(r[k]) && r[k] != answer && r[k] in words
    ensures forall w :: w in words && IsKeyWord(w) && w != answer ==> w in r
  {
    if words == [] then []
    else if IsKeyWord(words[0]) && words[0] != answer then [words[0]] + Distractors(answer, words[1..])
    else Distractors(answer, words[1..])
  }

  // ---------------------------------------------------------------- options

  /**
   * What a question's options must be: the answer, distinct words each of
   * which is the answer or a distractor, and as many as there can be (four,
   * or fewer when the sentence has fewer different distractors).
   */
  ghost predicate ValidOptions(options: seq<string>, answer: string, words: seq<string>) {
    && answer in options
    && Distinct(options)
    && (forall o :: o in options ==> o == answer || o in Distractors(answer, words))
    && |options| == Min(MaxOptions, 1 + |Elements(Distractors(answer, words))|)
  }

  /**
   * Valid options hold the answer exactly once, one to four options in all,
   * and every other option is a key word of the sentence other than the answer.
   */
  lemma ValidOptionsShape(options: seq<string>, answer: string, words: seq<string>)
    requires ValidOptions(options, answer, words)
    ensures multiset(options)[answer] == 1
    ensures 1 <= |options| <= MaxOptions
    ensures forall o :: o in options && o != answer ==> IsKeyWord(o) && o in words
  {
    DistinctMultiplicity(options, answer);
  }

  /** Rearranging valid options leaves them valid. */
  lemma PermutedOptions(options: seq<string>, shuffled: seq<string>, answer: string, words: seq<string>)
    requires ValidOptions(options, answer, words) && multiset(shuffled) == multiset(options)
    ensures ValidOptions(shuffled, answer, words)
  {
    PermutationKeepsDistinct(options, shuffled);
    assert |shuffled| == |multiset(shuffled)| == |multiset(options)| == |options|;
    forall o ensures o in shuffled <==> o in options {
      assert o in shuffled <==> o in multiset(shuffled);
      assert o in options <==> o in multiset(options);
    }
  }

  /** When the drawing loop ends, it has drawn as many options as there can be. */
  lemma DrawnOptionsCount(opts: seq<string>, similar: seq<string>, distractors: seq<string>)
    requires 1 <= |opts| <= MaxOptions && Distinct(opts)
    requires forall x :: x in distractors <==> x in opts[1..] || x in similar
    requires |opts| == MaxOptions || similar == []
    ensures |opts| == Min(MaxOptions, 1 + |Elements(distractors)|)
  {
    var taken := opts[1..];
    assert Distinct(taken);
    DistinctCardinality(taken);
    assert Elements(taken) <= Elements(distractors);
    SubsetCardinality(Elements(taken), Elements(distractors));
    if similar == [] {
      assert Elements(taken) == Elements(distractors);
    }
  }

  /**
   * `generateOptions`: starts from the answer and draws distractors at random,
   * skipping those already taken, until there are four options or no
   * candidate is left; then shuffles them.
   */
  method GenerateOptions(answer: string, words: seq<string>) returns (options: seq<string>)
    ensures ValidOptions(options, answer, words)
  {
    var distractors := Distractors(answer, words);
    var opts := [answer];
    var similar := distractors;
    while |opts| < MaxOptions && |similar| > 0
      invariant 1 <= |opts| <= MaxOptions && opts[0] == answer && Distinct(opts)
      invariant forall x :: x in distractors <==> x in opts[1..] || x in similar
      decreases |similar|
    {
      var randomIndex :| 0 <= randomIndex < |similar|;
      var candidate := similar[randomIndex];
      RemoveAtElements(similar, randomIndex);
      if candidate !in opts {
        assert (opts + [candidate])[1..] == opts[1..] + [candidate];
        opts := opts + [candidate];
      }
      similar := similar[..randomIndex] + similar[randomIndex + 1..];
    }
    DrawnOptionsCount(opts, similar, distractors);
    assert ValidOptions(opts, answer, words);
    var a := new string[|opts|](k requires 0 <= k < |opts| => opts[k]);
    assert a[..] == opts;
    Shuffle(a);
    options := a[..];
    PermutedOptions(opts, options, answer, words);
  }

  /**
   * `options.sort(() => Math.random() - 0.5)`: a sort whose comparator answers
   * at random, modelled as an insertion sort in which every comparison may go
   * either way. Whatever the answers, the result is a rearrangement.
   */
  method Shuffle<T>(a: array<T>)
    modifies a
    ensures multiset(a[..]) == multiset(old(a[..]))
  {
    var i := 1;
    while i < a.Length
      invariant multiset(a[..]) == multiset(old(a[..]))
    {
      var j := i;
      while j > 0
        invariant j <= i < a.Length
        invariant multiset(a[..]) == multiset(old(a[..]))
      {
        var inOrder: bool :| true;
        if inOrder {
          break;
        }
        a[j - 1], a[j] := a[j], a[j - 1];
        j := j - 1;
      }
      i := i + 1;
    }
  }

  // ---------------------------------------------------------------- one question

  /** A sentence is asked about when it has a key word. */
  predicate HasKeyWord(sentence: string) {
    KeyWords(Words(sentence)) != []
  }

  /** The answer to a sentence's question: its first key word. */
  function Answer(sentence: string): string
    requires HasKeyWord(sentence)
  {
    KeyWords(Words(sentence))[0]
  }

  /**
   * `sentence.replace(keyWords[0], '_____')`: the answer occurs in the
   * sentence, so exactly one occurrence of it gives way to the blank.
   */
  function Prompt(sentence: string): (r: string)
    requires HasKeyWord(sentence)
    ensures |r| + |Answer(sentence)| == |sentence| + |Blank|
  {
    AnswerOccurs(sentence);
    ReplaceFirst(sentence, Answer(sentence), Blank)
  }

  /** The answer occurs in its sentence: it is one of the sentence's words. */
  lemma AnswerOccurs(sentence: string)
    requires HasKeyWord(sentence)
    ensures IndexOf(sentence, Answer(sentence)).Some?
  {
    var k := AnswerIsFirstKeyWord(sentence);
    var at := WordOffset(sentence, k);
    assert OccursAt(sentence, Answer(sentence), at);
  }

  /** The answer is the first word of the sentence that is a key word. */
  lemma AnswerIsFirstKeyWord(sentence: string) returns (k: nat)
    requires HasKeyWord(sentence)
    ensures k < |Words(sentence)| && Words(sentence)[k] == Answer(sentence) && IsKeyWord(Answer(sentence))
    ensures forall j :: 0 <= j < k ==> !IsKeyWord(Words(sentence)[j])
  {
    k := FirstKeyWord(Words(sentence));
  }

  /**
   * The answer occurs in its sentence, so the prompt really has a blank: at
   * the answer's first occurrence (no later than the answer's own word), and
   * putting the answer back in the blank gives the sentence again.
   */
  lemma PromptBlanksAnswer(sentence: string) returns (i: nat, at: nat)
    requires HasKeyWord(sentence)
    ensures OccursAt(sentence, Answer(sentence), at) && i <= at
    ensures IndexOf(sentence, Answer(sentence)) == Some(i)
    ensures i + |Blank| <= |Prompt(sentence)| && Prompt(sentence)[i..i + |Blank|] == Blank
    ensures Prompt(sentence)[..i] + Answer(sentence) + Prompt(sentence)[i + |Blank|..] == sentence
  {
    var k := AnswerIsFirstKeyWord(sentence);
    at := WordOffset(sentence, k);
    assert OccursAt(sentence, Answer(sentence), at);
    i := IndexOf(sentence, Answer(sentence)).value;
  }

  datatype Question = Question(id: nat, prompt: string, answer: string, options: seq<string>)

  /** `q` is the question the generator asks about `sentence` (whatever its id). */
  ghost predicate AskedAbout(q: Question, sentence: string) {
    && HasKeyWord(sentence)
    && q.answer == Answer(sentence)
    && q.prompt == Prompt(sentence)
    && ValidOptions(q.options, q.answer, Words(sentence))
  }

  /** The body shared by both passes: a question about `sentence` when it has a key word. */
  method Ask(id: nat, sentence: string) returns (q: Option<Question>)
    ensures q.Some? <==> HasKeyWord(sentence)
    ensures q.Some? ==> q.value.id == id && AskedAbout(q.value, sentence)
  {
    var words := Words(sentence);
    var keyWords := KeyWords(words);
    if |keyWords| > 0 {
      var options := GenerateOptions(keyWords[0], words);
      q := Some(Question(id, ReplaceFirst(sentence, keyWords[0], Blank), keyWords[0], options));
    } else {
      q := None;
    }
  }

  // ---------------------------------------------------------------- all questions

  /** The positions of the true entries of `flags`, in ascending order. */
  function Where(flags: seq<bool>): (r: seq<nat>)
    ensures forall k :: 0 <= k < |r| ==> r[k] < |flags| && flags[r[k]]
  {
    if flags == [] then []
    else
      var n := |flags| - 1;
      Where(flags[..n]) + (if flags[n] then [n] else [])
  }

  /** Every true entry is listed. */
  lemma {:induction false} WhereComplete(flags: seq<bool>, i: nat)
    requires i < |flags| && flags[i]
    ensures i in Where(flags)
  {
    var n := |flags| - 1;
    if i < n {
      assert flags[..n][i] == flags[i];
      WhereComplete(flags[..n], i);
    }
  }

  /** Extending the flags by one entry extends the positions by at most that one. */
  lemma WhereSnoc(flags: seq<bool>, i: nat)
    requires i < |flags|
    ensures Where(flags[..i + 1]) == Where(flags[..i]) + (if flags[i] then [i] else [])
  {
    assert flags[..i + 1][..i] == flags[..i];
  }

  lemma {:induction false} WhereIncreasing(flags: seq<bool>)
    ensures Increasing(Where(flags))
  {
    if flags != [] {
      WhereIncreasing(flags[..|flags| - 1]);
    }
  }

  /** For each sentence, whether it has a key word. */
  function KeyedFlags(sentences: seq<string>): (flags: seq<bool>)
    ensures |flags| == |sentences| && forall i :: 0 <= i < |flags| ==> (flags[i] <==> HasKeyWord(sentences[i]))
  {
    seq(|sentences|, i requires 0 <= i < |sentences| => HasKeyWord(sentences[i]))
  }

  /** The positions of the sentences that have a key word, in ascending order. */
  function KeyedIndices(sentences: seq<string>): (r: seq<nat>)
    ensures forall k :: 0 <= k < |r| ==> r[k] < |sentences| && HasKeyWord(sentences[r[k]])
  {
    Where(KeyedFlags(sentences))
  }

  /** One more sentence adds its own position when it has a key word. */
  lemma KeyedIndicesSnoc(sentences: seq<string>, i: nat)
    requires i < |sentences|
    ensures KeyedIndices(sentences[..i + 1]) ==
      KeyedIndices(sentences[..i]) + (if HasKeyWord(sentences[i]) then [i] else [])
  {
    var flags := KeyedFlags(sentences[..i + 1]);
    assert flags[..i] == KeyedFlags(sentences[..i]);
    assert flags[i] == HasKeyWord(sentences[i]);
    WhereSnoc(flags, i);
    assert flags[..i + 1] == flags;
  }

  /** Every sentence with a key word is listed, and the list ascends. */
  lemma KeyedIndicesComplete(sentences: seq<string>, i: nat)
    requires i < |sentences| && HasKeyWord(sentences[i])
    ensures i in KeyedIndices(sentences) && Increasing(KeyedIndices(sentences))
  {
    WhereComplete(KeyedFlags(sentences), i);
    WhereIncreasing(KeyedFlags(sentences));
  }

  /** The ids of a list of questions. */
  function Ids(qs: seq<Question>): (ids: seq<nat>)
    ensures |ids| == |qs| && forall k :: 0 <= k < |qs| ==> ids[k] == qs[k].id
  {
    seq(|qs|, k requires 0 <= k < |qs| => qs[k].id)
  }

  lemma IdsSnoc(qs: seq<Question>, q: Question)
    ensures Ids(qs + [q]) == Ids(qs) + [q.id]
  {
  }

  /** Each question is asked about the sentence its id points at. */
  ghost predicate AskedAtIds(qs: seq<Question>, sentences: seq<string>) {
    forall k :: 0 <= k < |qs| ==> qs[k].id < |sentences| && AskedAbout(qs[k], sentences[qs[k].id])
  }

  lemma AskedAtIdsSnoc(qs: seq<Question>, q: Question, sentences: seq<string>)
    requires AskedAtIds(qs, sentences) && q.id < |sentences| && AskedAbout(q, sentences[q.id])
    ensures AskedAtIds(qs + [q], sentences)
  {
    var r := qs + [q];
    forall k | 0 <= k < |r| ensures r[k].id < |sentences| && AskedAbout(r[k], sentences[r[k].id]) {
      if k < |qs| {
        assert r[k] == qs[k];
      } else {
        assert r[k] == q;
      }
    }
  }

  /**
   * The first pass (`sentences.forEach`): one question per sentence with a key
   * word, in sentence order, each with the sentence's index as its id.
   */
  method FirstPass(sentences: seq<string>) returns (qs: seq<Question>)
    ensures Ids(qs) == KeyedIndices(sentences)
    ensures AskedAtIds(qs, sentences)
  {
    qs := [];
    var index := 0;
    while index < |sentences|
      invariant index <= |sentences|
      invariant Ids(qs) == KeyedIndices(sentences[..index])
      invariant AskedAtIds(qs, sentences)
    {
      KeyedIndicesSnoc(sentences, index);
      var q := Ask(index, sentences[index]);
      if q.Some? {
        IdsSnoc(qs, q.value);
        AskedAtIdsSnoc(qs, q.value, sentences);
        qs := qs + [q.value];
      }
      index := index + 1;
    }
    assert sentences[..index] == sentences;
  }

  /**
   * `qs` extends `first` with questions each asked about some sentence and
   * each numbered by its position in the list.
   */
  ghost predicate Backfilled(sentences: seq<string>, first: seq<Question>, qs: seq<Question>) {
    && |first| <= |qs| && qs[..|first|] == first
    && forall k :: |first| <= k < |qs| ==> qs[k].id == k && FromSentences(qs[k], sentences)
  }

  /** `q` is asked about one of `sentences`. */
  ghost predicate FromSentences(q: Question, sentences: seq<string>) {
    exists i :: 0 <= i < |sentences| && AskedAbout(q, sentences[i])
  }

  /** Appending a question about one of the sentences, numbered by its position, keeps a backfill. */
  lemma BackfilledSnoc(sentences: seq<string>, first: seq<Question>, qs: seq<Question>, q: Question, i: nat)
    requires Backfilled(sentences, first, qs)
    requires q.id == |qs| && i < |sentences| && AskedAbout(q, sentences[i])
    ensures Backfilled(sentences, first, qs + [q])
  {
    var r := qs + [q];
    assert r[..|first|] == qs[..|first|];
    forall k | |first| <= k < |r| ensures r[k].id == k && FromSentences(r[k], sentences) {
      if k < |qs| {
        assert r[k] == qs[k];
      } else {
        assert r[k] == q && FromSentences(q, sentences);
      }
    }
  }

  /** How many questions the backfill aims at. */
  function Target(sentences: seq<string>, first: seq<Question>): nat {
    Max(|first|, Min(MaxQuestions, |sentences|))
  }

  /**
   * The backfill loop as written: draws any sentence at random and asks
   * about it when it has a key word, while there are fewer than five
   * questions and fewer questions than sentences. The loop has no bound of
   * its own; `fuel` bounds the draws modelled, and `exited` says whether the
   * loop condition had become false.
   */
  method BackfillAsWritten(sentences: seq<string>, first: seq<Question>, fuel: nat)
    returns (qs: seq<Question>, exited: bool)
    ensures Backfilled(sentences, first, qs)
    ensures exited <==> !(|qs| < MaxQuestions && |qs| < |sentences|)
    ensures exited ==> |qs| == Target(sentences, first)
    ensures KeyedIndices(sentences) == [] ==> qs == first
    ensures KeyedIndices(sentences) == [] && |first| < Min(MaxQuestions, |sentences|) ==> !exited
  {
    qs := first;
    var attempts := 0;
    while |qs| < MaxQuestions && |qs| < |sentences| && attempts < fuel
      invariant Backfilled(sentences, first, qs)
      invariant |qs| <= Target(sentences, first)
      invariant KeyedIndices(sentences) == [] ==> qs == first
      decreases fuel - attempts
    {
      var r :| 0 <= r < |sentences|;
      if HasKeyWord(sentences[r]) {
        KeyedIndicesComplete(sentences, r);
      }
      var q := Ask(|qs|, sentences[r]);
      if q.Some? {
        BackfilledSnoc(sentences, first, qs, q.value, r);
        qs := qs + [q.value];
      }
      attempts := attempts + 1;
    }
    exited := !(|qs| < MaxQuestions && |qs| < |sentences|);
  }

  /**
   * The backfill as intended: draws only among the sentences that have a key
   * word, so that it always ends; when no sentence has one it adds nothing.
   */
  method Backfill(sentences: seq<string>, first: seq<Question>) returns (qs: seq<Question>)
    ensures Backfilled(sentences, first, qs)
    ensures |qs| == if KeyedIndices(sentences) == [] then |first| else Target(sentences, first)
  {
    var keyed := KeyedIndices(sentences);
    qs := first;
    if |keyed| > 0 {
      while |qs| < MaxQuestions && |qs| < |sentences|
        invariant Backfilled(sentences, first, qs)
        invariant |qs| <= Target(sentences, first)
        decreases MaxQuestions - |qs|
      {
        var r :| 0 <= r < |keyed|;
        var q := Ask(|qs|, sentences[keyed[r]]);
        BackfilledSnoc(sentences, first, qs, q.value, keyed[r]);
        qs := qs + [q.value];
      }
    }
  }

  /** The same questions, each numbered by its position in the list. */
  function Renumbered(qs: seq<Question>): seq<Question> {
    seq(|qs|, k requires 0 <= k < |qs| => qs[k].(id := k))
  }

  /**
   * `generateQuestions` as written: the first pass, then the unbounded
   * backfill; first-pass ids are sentence indices, backfilled ids positions.
   */
  method GenerateQuestionsAsWritten(summaryText: string, fuel: nat) returns (qs: seq<Question>, exited: bool)
    ensures exited ==> QuizAsWritten(qs, summaryText)
    ensures KeyedIndices(Sentences(summaryText)) == [] ==> qs == []
    ensures var sentences := Sentences(summaryText);
      && |KeyedIndices(sentences)| <= |qs|
      && (forall k :: 0 <= k < |KeyedIndices(sentences)| ==>
            qs[k].id == KeyedIndices(sentences)[k] && AskedAbout(qs[k], sentences[KeyedIndices(sentences)[k]]))
      && Backfilled(sentences, qs[..|KeyedIndices(sentences)|], qs)
      && (exited ==> |qs| == Max(|KeyedIndices(sentences)|, Min(MaxQuestions, |sentences|)))
      && (KeyedIndices(sentences) == [] && sentences != [] ==> !exited)
  {
    var sentences := Sentences(summaryText);
    var first := FirstPass(sentences);
    qs, exited := BackfillAsWritten(sentences, first, fuel);
  }

  /**
   * What the as-written generator leaves when its backfill loop exits: the
   * first-pass questions, with their sentence indices as ids, followed by
   * backfilled questions numbered by position, `max(first pass, min(5, n))`
   * questions in all.
   */
  ghost predicate QuizAsWritten(qs: seq<Question>, summaryText: string) {
    var sentences := Sentences(summaryText);
    var keyed := KeyedIndices(sentences);
    && |keyed| <= |qs|
    && (forall k :: 0 <= k < |keyed| ==> qs[k].id == keyed[k] && AskedAbout(qs[k], sentences[keyed[k]]))
    && Backfilled(sentences, qs[..|keyed|], qs)
    && |qs| == Max(|keyed|, Min(MaxQuestions, |sentences|))
  }

  /**
   * What `generateQuestions` is meant to produce for a summary: as many
   * questions as sentences up to five, but at least one per sentence with a
   * key word and none at all when no sentence has one; numbered 0, 1, ...;
   * the sentences with a key word asked about first and in order; every
   * question asked about one of the sentences.
   */
  ghost predicate Quiz(qs: seq<Question>, summaryText: string) {
    var sentences := Sentences(summaryText);
    && |qs| == (if KeyedIndices(sentences) == [] then 0
                else Max(|KeyedIndices(sentences)|, Min(MaxQuestions, |sentences|)))
    && (forall k :: 0 <= k < |qs| ==> qs[k].id == k)
    && (forall k :: 0 <= k < |KeyedIndices(sentences)| ==> AskedAbout(qs[k], sentences[KeyedIndices(sentences)[k]]))
    && (forall k :: 0 <= k < |qs| ==> FromSentences(qs[k], sentences))
  }

  /**
   * `generateQuestions` with both corrections: the backfill draws only among
   * sentences with a key word, so it always ends, and every question is
   * numbered by its position, so no two share an id.
   */
  method GenerateQuestions(summaryText: string) returns (qs: seq<Question>)
    ensures Quiz(qs, summaryText)
  {
    var sentences := Sentences(summaryText);
    var first := FirstPass(sentences);
    qs := Backfill(sentences, first);
    qs := Renumbered(qs);
  }

  // ---------------------------------------------------------------- the two defects, as written

  /** A sentence made of one character that is not white space has no key word. */
  lemma OneLetterNoKeyWord(x: char)
    requires !IsSpace(x)
    ensures KeyedIndices([[x]]) == []
  {
    assert DropLeading([x], Space) == [x] && TrimEnd([x]) == [x];
    SplitNoDelim([x], Space);
    assert Words([x]) == [[x]];
    assert !IsKeyWord([x]);
    assert KeyWords([[x]]) == KeyWords([]) == [];
    assert [false][..0] == [];
    assert KeyedFlags([[x]]) == [false];
    assert Where([false]) == Where([]) + [];
  }

  /** The summary "x." has the one sentence "x". */
  lemma OneLetterSentences(x: char)
    requires Letter(x)
    ensures Sentences([x, '.']) == [[x]]
  {
    var pieces := [[x], ""];
    assert Join(pieces, ".") == [x] + "." + Join([""], ".") == [x, '.'];
    SplitJoin(pieces, '.', Terminator);
    BlankIffAllSpace([x]);
    BlankIffAllSpace("");
    assert NonBlank(pieces) == [[x]] + NonBlank([""]) == [[x]] + NonBlank([]);
  }

  /**
   * For the summary "x." of one letter, `generateQuestions` as written asks
   * nothing and never leaves its backfill loop, whatever the number of draws.
   */
  method OneLetterNeverEnds(x: char, fuel: nat) returns (qs: seq<Question>, exited: bool)
    requires Letter(x)
    ensures qs == [] && !exited
  {
    OneLetterSentences(x);
    OneLetterNoKeyWord(x);
    qs, exited := GenerateQuestionsAsWritten([x, '.'], fuel);
  }

  /**
   * When only the second of two sentences has a key word, the first pass
   * numbers its question 1 and the backfill numbers the next one 1 as well.
   */
  method DuplicateIds(s0: string, s1: string, fuel: nat) returns (qs: seq<Question>, exited: bool)
    requires !HasKeyWord(s0) && HasKeyWord(s1)
    ensures exited ==> |qs| == 2 && qs[0].id == 1 && qs[1].id == 1
  {
    assert KeyedFlags([s0, s1]) == [false, true];
    assert [false, true][..1] == [false] && [false][..0] == [];
    assert Where([false]) == Where([]) + [] == [];
    assert Where([false, true]) == Where([false]) + [1];
    var first := FirstPass([s0, s1]);
    assert |first| == 1 && first[0].id == 1;
    qs, exited := BackfillAsWritten([s0, s1], first, fuel);
    if exited {
      assert |qs| == 2;
      assert qs[0] == qs[..1][0] == first[0];
    }
  }
}
