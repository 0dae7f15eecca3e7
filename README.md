# Summariser and quiz generator of the note-taking app

This project models the text-processing core of a React Native note-taking app.
The summary screen (`screens/SummaryScreen.js`) does two things:

- It turns free text into an extractive summary of at most three sentences.
- It generates fill-in-the-blank multiple-choice questions from that summary.

The quiz screen (`screens/QuizScreen.js`) repeats the same question generator.

The model has five modules:

- `Seqs`: generic facts about sequences.
- `Text`: the JavaScript string operations the screens use: `split` on a character-class regex, `filter` of blank pieces, `trim`, `length` counted in UTF-16 units, `indexOf`, `includes`, `replace` of a string pattern, and `join`.
- `Summary`: `calculateImportance` and the summary pipeline of `handleSummarize`.
- `Questions`: `generateQuestions` and `generateOptions`. These are identical in both screens, apart from the quiz screen's `try`/`catch` and loading flag (screens/QuizScreen.js:42-44, 88-93).
- `Screens`: the React state the two screens' handlers update, as one class per screen. Each class has the handler as the screen runs it (`HandleSummarizeAsWritten`, `GenerateQuestionsAsWrittenFor`) and the same handler built on the corrected members of the Findings table (`HandleSummarize`, `GenerateQuestionsFor`, `Press`, `Open`).

`Math.random()` is modelled as a nondeterministic choice (`:|`). So every method that draws at random states what holds for every possible draw.

The importance score is kept as an integer, ten times the screen's value (`3 * words + 20 * keyword + 10`). This keeps every comparison the screen makes, with no floating point.

Facts about the code that the model keeps:

- A key word is longer than two UTF-16 units (`word.length > 2`, screens/QuizScreen.js:52) and is not one of the twelve particles.
- Importance is `0.3 * words + 2 * keyword + 1` (screens/SummaryScreen.js:113-130). Sentence length in characters and special characters play no part.
- Options are drawn from the key words of the question's own sentence (screens/QuizScreen.js:61, 98-102).
- The backfill as written can run forever (screens/QuizScreen.js:68-85). The model proves the hang for the as-written loop; the corrected handlers use the corrected loop (see Findings).

## Model

| member | source | states |
|---|---|---|
| Text.Split | screens/SummaryScreen.js:21 | `split` on a run of delimiters always yields at least one piece |
| Text.SplitPiecesNoDelim | screens/SummaryScreen.js:21 | no piece produced by the split contains a delimiter |
| Text.SplitConcat | screens/SummaryScreen.js:21 | the pieces, put together, are the input with its delimiters removed: the split loses nothing else |
| Text.SplitJoin | screens/SummaryScreen.js:34 | splitting on a delimiter undoes joining with that delimiter, provided no piece contains one and no inner piece is empty |
| Text.SplitPieceOffset | screens/SummaryScreen.js:21 | every piece of a split stands verbatim in the input at some offset |
| Text.Trim | screens/SummaryScreen.js:21 | `trim()` neither starts nor ends with white space and is no longer than its input |
| Text.TrimSlice | screens/SummaryScreen.js:21 | `trim()` is the slice of the input between a leading and a trailing run of white space |
| Text.TrimIdempotent | screens/SummaryScreen.js:32 | trimming a trimmed sentence changes nothing |
| Text.BlankIffAllSpace | screens/SummaryScreen.js:12 | `!s.trim()` holds exactly when `s` is white space throughout |
| Text.NonBlank | screens/SummaryScreen.js:21 | the filter keeps exactly the non-blank pieces: each kept piece is non-blank and every non-blank piece is kept |
| Text.Sentences | screens/SummaryScreen.js:21 | every sentence is non-blank and free of `.`, `!` and `?` |
| Text.NoSentences | screens/SummaryScreen.js:48 | an empty text has no sentences |
| Text.Words | screens/SummaryScreen.js:53 | `sentence.trim().split(/\s+/)` is the single empty word exactly when the sentence is blank |
| Text.WordsNonEmpty | screens/SummaryScreen.js:53 | the words of a non-blank sentence are non-empty and contain no white space |
| Text.WordsConcat | screens/SummaryScreen.js:53 | the words, put together, are the sentence without its white space |
| Text.WordOffset | screens/SummaryScreen.js:53 | each word stands verbatim in the untrimmed sentence |
| Text.Utf16Length | screens/SummaryScreen.js:55 | JavaScript's `length` is at least the number of characters and at most twice that |
| Text.IndexFrom | screens/SummaryScreen.js:62 | `indexOf` finds the first occurrence at or after the start, or reports that there is none |
| Text.ReplaceFirst | screens/SummaryScreen.js:62 | `replace` with a string pattern leaves the text alone when the pattern is absent; otherwise the replacement stands at the first occurrence, and putting the pattern back there gives the original |
| Summary.IncludesAnyIff | screens/SummaryScreen.js:122-124 | `keywords.some(includes)` holds exactly when some keyword occurs in the sentence |
| Summary.Importance | screens/SummaryScreen.js:113-130 | the score is ten times `0.3 * wordCount + (2 if a discourse keyword occurs) + 1`, so it is at least 13 |
| Summary.ImportanceByWordCount | screens/SummaryScreen.js:129 | with the keyword flag fixed, the score rises strictly with the word count, and only then |
| Summary.SortBy | screens/SummaryScreen.js:29 | sorting by a key gives a permutation of the input that is sorted by that key |
| Summary.SortByStable | screens/SummaryScreen.js:29 | the sort is stable: positions with equal keys keep their ascending order |
| Summary.Ranked | screens/SummaryScreen.js:24-29 | the ranking is a permutation of the sentence positions: one entry per sentence |
| Summary.Top | screens/SummaryScreen.js:29-30 | the selection keeps exactly `min(3, n)` positions of sentences |
| Summary.TopIsMostImportant | screens/SummaryScreen.js:24-30 | every kept sentence is more important than every sentence left out, or as important and earlier in the text |
| Summary.TopDistinct | screens/SummaryScreen.js:24-30 | no sentence position is kept twice |
| Summary.InTextOrder | screens/SummaryScreen.js:31 | the kept positions are rearranged into ascending document order |
| Summary.InTextOrderIncreasing | screens/SummaryScreen.js:30-31 | the kept positions strictly ascend, and there are `min(3, n)` of them |
| Summary.Summarize | screens/SummaryScreen.js:21-34 | the summary with the kept sentences in document order is empty exactly when the text has no sentence |
| Summary.SummarySentences | screens/SummaryScreen.js:21-34 | splitting the summary into sentences gives back the kept sentences, trimmed and in order, each after the first with the joining space in front |
| Summary.SentencesOfPunctuated | screens/SummaryScreen.js:32-34 | sentences that are non-empty, free of terminators and trimmed at the front survive the full stop, the join and the re-split |
| Summary.IndexIn | screens/SummaryScreen.js:31 | `sentences.indexOf(x)` is the first position holding `x` |
| Summary.AsWrittenOrder | screens/SummaryScreen.js:31 | the as-written reordering sorts the kept positions by `indexOf` of their sentence text |
| Summary.SummarizeAsWritten | screens/SummaryScreen.js:21-34 | the summary with the screen's `indexOf` reordering is empty exactly when the text has no sentence |
| Summary.SummaryAsWrittenSentences | screens/SummaryScreen.js:21-34 | splitting the screen's own summary into sentences gives back the `min(3, n)` kept sentences, trimmed and in `indexOf` order, each after the first with the joining space in front |
| Summary.AsWrittenAgreesWhenDistinct | screens/SummaryScreen.js:31 | when no sentence repeats, ordering by `indexOf` gives the same summary as ordering by position |
| Summary.AsWrittenOutOfOrder | screens/SummaryScreen.js:31 | for the text " x. y. x." the as-written summary is "x. x. y." but the summary in document order is "x. y. x." |
| Questions.StopWordsShort | screens/QuizScreen.js:53 | every stop word is at most two UTF-16 units long |
| Questions.KeyWordIffLong | screens/QuizScreen.js:51-54 | a word is a key word exactly when it is longer than two units: the stop list never changes the filter |
| Questions.KeyWords | screens/QuizScreen.js:51-54 | the key words are exactly the words longer than two units that are not stop words |
| Questions.FirstKeyWord | screens/QuizScreen.js:60 | `keyWords[0]` is a word of the sentence, and no earlier word is a key word |
| Questions.Distractors | screens/QuizScreen.js:98-102 | the candidates are exactly the key words of the sentence other than the answer |
| Questions.GenerateOptions | screens/QuizScreen.js:96-114 | the options hold the answer, have no repeats, hold only the answer and candidates, and number `min(4, 1 + distinct candidates)` |
| Questions.DrawnOptionsCount | screens/QuizScreen.js:104-110 | when the drawing loop stops, it has drawn `min(4, 1 + distinct candidates)` options |
| Questions.ValidOptionsShape | screens/SummaryScreen.js:93-110 | the answer appears exactly once, there are one to four options, and every other option is a key word of the sentence |
| Questions.PermutedOptions | screens/QuizScreen.js:113 | any rearrangement of valid options is valid |
| Questions.Shuffle | screens/QuizScreen.js:113 | the sort with a random comparator returns a permutation of the options |
| Questions.AnswerIsFirstKeyWord | screens/QuizScreen.js:60 | the answer is the first word of its sentence that is a key word |
| Questions.AnswerOccurs | screens/QuizScreen.js:59-60 | the answer, a word of the sentence, occurs in the untrimmed sentence |
| Questions.Prompt | screens/QuizScreen.js:59 | exactly one occurrence of the answer gives way to the blank: the prompt is as long as the sentence, less the answer, plus the blank |
| Questions.PromptBlanksAnswer | screens/QuizScreen.js:59 | the answer occurs in the untrimmed sentence; the prompt has the blank at its first occurrence, no later than the answer's own word, and putting the answer back gives the sentence |
| Questions.Ask | screens/QuizScreen.js:50-64 | a sentence gives a question exactly when it has a key word; the question has the given id, the first key word as answer, the blanked prompt and valid options |
| Questions.KeyedIndices | screens/QuizScreen.js:49-56 | lists only positions of sentences with a key word |
| Questions.KeyedIndicesComplete | screens/QuizScreen.js:49-56 | lists every sentence with a key word, in ascending order |
| Questions.FirstPass | screens/QuizScreen.js:49-65 | one question per sentence with a key word, in sentence order, whose id is that sentence's index |
| Questions.BackfillAsWritten | screens/QuizScreen.js:68-85 | each added question's id is the number of questions before it; if the loop exits there are `max(firstPass, min(5, n))` questions; with no key word anywhere nothing is added and the loop never exits |
| Questions.Backfill | screens/QuizScreen.js:68-85 | drawing only among sentences with a key word, the loop ends with `max(firstPass, min(5, n))` questions, or adds none when no sentence has a key word |
| Questions.GenerateQuestionsAsWritten | screens/QuizScreen.js:41-94 | first-pass questions keep sentence indices as ids; if the backfill exits the count is `max(firstPass, min(5, n))`; a summary with sentences but no key word never finishes |
| Questions.OneLetterSentences | screens/SummaryScreen.js:48 | the summary "x." of one letter has the single sentence "x" |
| Questions.GenerateQuestions | screens/SummaryScreen.js:47-91 | the corrected generator always ends; it asks about every sentence with a key word first and in order, tops the list up to `min(5, n)`, asks nothing when there is no key word, and numbers the questions 0, 1, … |
| Questions.OneLetterNeverEnds | screens/SummaryScreen.js:47-88 | for the summary "x." of any one letter, the as-written generator asks nothing and its backfill never exits, whatever the number of draws |
| Questions.DuplicateIds | screens/SummaryScreen.js:52-88 | when only the second of two sentences has a key word, the as-written generator gives both questions id 1 |
| Screens.SummarizeAndAsk | screens/SummaryScreen.js:20-37 | a non-blank text gives its summary and a quiz on that summary |
| Screens.SummarizeAndAskAsWritten | screens/SummaryScreen.js:20-37 | as the screen runs it: the `indexOf`-ordered summary, the as-written questions on it when the backfill exits, and no exit when the summary has sentences but no key word |
| Screens.SummaryScreen.HandleSummarizeAsWritten | screens/SummaryScreen.js:10-45 | as the screen runs it: blank input changes nothing; otherwise the `indexOf`-ordered summary is stored, the as-written questions replace the old ones only if the backfill exits, and it cannot exit when the summary has sentences but no key word |
| Screens.SummaryScreen.HandleSummarize | screens/SummaryScreen.js:10-45 | blank input changes neither summary nor questions; otherwise the summary is that of the input and the questions are a quiz on the summary |
| Screens.SummaryScreen.constructor | screens/SummaryScreen.js:5-7 | the text, the summary and the questions start empty |
| Screens.SummaryScreen.SetInputText | screens/SummaryScreen.js:5 | typing replaces the text and nothing else |
| Screens.QuizScreen.constructor | screens/QuizScreen.js:6-7 | the text and the questions start empty |
| Screens.QuizScreen.SetInputText | screens/QuizScreen.js:157 | typing replaces the text and keeps the questions |
| Screens.QuizScreen.Press | screens/QuizScreen.js:161-163 | the button asks the questions on the text in the box, with the corrected generator |
| Screens.QuizScreen.GenerateQuestionsAsWrittenFor | screens/QuizScreen.js:41-94 | as the screen runs it: the as-written questions replace the old ones only if the backfill exits, and it cannot exit when the text has sentences but no key word |
| Screens.QuizScreen.GenerateQuestionsFor | screens/QuizScreen.js:41-94 | with the corrected generator, the stored questions are a quiz on the given summary and the text box is kept |
| Screens.QuizScreen.Open | screens/QuizScreen.js:11-16 | questions are generated exactly when a non-empty summary is passed; otherwise they are kept |

## Left out

- Rendering is not modelled: styles, the keyboard, `KeyboardAvoidingView` and the `isLoading` flag are UI only.
- Alerts and `console.error` are not modelled. The model keeps only the state change an alert stands beside: a blank input changes nothing.
- The `try`/`catch` blocks are not modelled. No modelled operation throws.
- Saved quizzes in `AsyncStorage` are not modelled, because they are external storage: `loadSavedQuizzes`, `saveQuiz` and `loadSavedQuestions`.
- The image-to-text screen is not modelled. Its OCR request, camera and picker are network and platform I/O.
- Navigation, and the placeholder note and speech screens, are not modelled. They hold no logic.
- A paragraph-level summariser and a quiz session with answers and a score have no code in these screens.
- Randomness is modelled only as which outcomes are possible. The model says nothing about the distribution of `Math.random()` or about the bias of the random-comparator shuffle.
- Questions.Shuffle models the engine's sort as an insertion sort whose comparisons may go either way. Its only promise is a permutation. It does not claim that every permutation can occur.
- Summary.Importance works on integers ten times the screen's floating-point value. It does not model rounding, which cannot change an order between multiples of 0.1.
- Text.Utf16Length counts a character outside the Basic Multilingual Plane as two units. The model's strings are sequences of code points, so `indexOf` never finds a match that starts or ends inside a surrogate pair.
- `toLowerCase` in `calculateImportance` is not modelled. It does not change the Hangul keywords, so the keyword test is plain substring containment.
- Screens.SummaryScreen.HandleSummarize and Screens.QuizScreen.GenerateQuestionsFor (with SummarizeAndAsk, Press and Open) run the corrected members, not the code as written: the kept sentences are in document order instead of `indexOf` order (screens/SummaryScreen.js:31), every question id is its list position instead of the sentence index in the first pass (screens/SummaryScreen.js:61), and the backfill draws only among sentences with a key word, so it ends where the screen's loop does not (screens/SummaryScreen.js:71). The screens' own behaviour is HandleSummarizeAsWritten and GenerateQuestionsAsWrittenFor.
- Questions.PromptBlanksAnswer states that the blank is no later than the answer's own word. It does not prove that the two positions are equal.
- Questions.BackfillAsWritten bounds the unbounded loop with `fuel` draws. `exited` says whether the loop condition had become false. "Never exits" means it is still true after any number of draws.

## Findings

| source | as written | input that shows it | evidently intended | confidence | as-written member | corrected member |
|---|---|---|---|---|---|---|
| screens/SummaryScreen.js:71-88 (also screens/QuizScreen.js:68-85) | the backfill draws any sentence and only adds a question when it has a key word, with no other exit | summary "가." (one sentence, no word longer than two units) | generation ends, with no questions when no sentence has a key word | high; not executed | Questions.OneLetterNeverEnds | Questions.GenerateQuestions |
| screens/SummaryScreen.js:31 | kept sentences are ordered by `sentences.indexOf(text)`, so a repeated sentence sorts at its first occurrence | text " x. y. x." for any two different letters x, y | the kept sentences appear in document order | medium; not executed | Summary.AsWrittenOutOfOrder | Summary.InTextOrder |
| screens/SummaryScreen.js:61, 81 (also screens/QuizScreen.js:58, 78) | first-pass ids are sentence indices and backfilled ids are list positions, so the two can coincide; the ids are React keys (screens/SummaryScreen.js:170) | sentences ["가", "가나다"]: the first pass gives id 1 and the backfill gives another id 1 | every question has its own id | medium; not executed | Questions.DuplicateIds | Questions.GenerateQuestions |
