/**
 * The React state of the two screens that use the summariser and the
 * question generator. Each `useState` variable the modelled handlers set is a
 * field; the loading flag, alerts, the keyboard and storage are not modelled.
 */
module Screens {
  import opened Seqs
  import opened Text
  import opened Summary
  import opened Questions

  /** `summary` is the summary of `text` and `questions` a quiz on that summary. */
  ghost predicate Summarized(text: string, summary: string, questions: seq<Question>) {
    summary == Summarize(text) && Quiz(questions, summary)
  }

  /** What `handleSummarize` computes from a non-blank text: the summary, then the questions on it. */
  method SummarizeAndAsk(text: string) returns (summary: string, questions: seq<Question>)
    ensures Summarized(text, summary, questions)
  {
    summary := Summarize(text);
    questions := GenerateQuestions(summary);
  }

  /**
   * What the screen's own `handleSummarize` leaves: the `indexOf`-ordered
   * summary of `text`, the as-written questions on it when the backfill
   * loop exits, and no exit when the summary has sentences but no key word.
   */
  ghost predicate SummarizedAsWritten(text: string, summary: string, questions: seq<Question>, exited: bool) {
    && summary == SummarizeAsWritten(text)
    && (exited ==> QuizAsWritten(questions, summary))
    && (KeyedIndices(Sentences(summary)) == [] && Sentences(summary) != [] ==> !exited)
  }

  /** What the screen's `handleSummarize` computes from a non-blank text, as written. */
  method SummarizeAndAskAsWritten(text: string, fuel: nat) returns (summary: string, questions: seq<Question>, exited: bool)
    ensures SummarizedAsWritten(text, summary, questions, exited)
  {
    summary := SummarizeAsWritten(text);
    questions, exited := GenerateQuestionsAsWritten(summary, fuel);
  }

  /** The summary screen: a text box, its summary and the questions on the summary. */
  class SummaryScreen {
    var inputText: string
    var summary: string
    var questions: seq<Question>

    /** The initial state: every `useState` starts empty. */
    constructor()
      ensures inputText == "" && summary == "" && questions == []
    {
      inputText := "";
      summary := "";
      questions := [];
    }

    /** The text box's `onChangeText`. */
    method SetInputText(text: string)
      modifies this
      ensures inputText == text && summary == old(summary) && questions == old(questions)
    {
      inputText := text;
    }

    /**
     * `handleSummarize`: a blank text changes nothing (the user is alerted);
     * otherwise the summary is the three most important sentences in document
     * order and the questions are generated from the summary.
     */
    method HandleSummarize()
      modifies this
      ensures inputText == old(inputText)
      ensures IsBlank(old(inputText)) ==> summary == old(summary) && questions == old(questions)
      ensures !IsBlank(old(inputText)) ==> Summarized(old(inputText), summary, questions)
    {
      var text := inputText;
      if IsBlank(text) {
        return;
      }
      var tempSummary, generated := SummarizeAndAsk(text);
      summary, questions := tempSummary, generated;
    }

    /**
     * `handleSummarize` as the screen runs it: the `indexOf` reordering and
     * the as-written generator, whose backfill may never exit. The summary is
     * set before the questions are generated; the questions are set only
     * when the loop exits (`fuel` bounds the draws modelled).
     */
    method HandleSummarizeAsWritten(fuel: nat) returns (exited: bool)
      modifies this
      ensures inputText == old(inputText)
      ensures IsBlank(old(inputText)) ==> summary == old(summary) && questions == old(questions) && exited
      ensures !IsBlank(old(inputText)) ==> SummarizedAsWritten(old(inputText), summary, questions, exited)
      ensures !IsBlank(old(inputText)) && !exited ==> questions == old(questions)
    {
      var text := inputText;
      if IsBlank(text) {
        return true;
      }
      var tempSummary, generated;
      tempSummary, generated, exited := SummarizeAndAskAsWritten(text, fuel);
      summary := tempSummary;
      if exited {
        questions := generated;
      }
    }
  }

  /** The quiz screen: a text box and the questions generated from it or from a summary the screen is opened with. */
  class QuizScreen {
    var inputText: string
    var questions: seq<Question>

    /** The initial state: both `useState` variables start empty. */
    constructor()
      ensures inputText == "" && questions == []
    {
      inputText := "";
      questions := [];
    }

    /** The text box's `onChangeText`. */
    method SetInputText(text: string)
      modifies this
      ensures inputText == text && questions == old(questions)
    {
      inputText := text;
    }

    /** The button's `onPress`: questions on the text typed in the box. */
    method Press()
      modifies this
      ensures inputText == old(inputText)
      ensures Quiz(questions, old(inputText))
    {
      GenerateQuestionsFor(inputText);
    }

    /** `generateQuestions` on this screen, which stores its result. */
    method GenerateQuestionsFor(summaryText: string)
      modifies this
      ensures inputText == old(inputText)
      ensures Quiz(questions, summaryText)
    {
      questions := GenerateQuestions(summaryText);
    }

    /**
     * `generateQuestions` as this screen runs it: the as-written generator,
     * which stores its questions only when the backfill loop exits.
     */
    method GenerateQuestionsAsWrittenFor(summaryText: string, fuel: nat) returns (exited: bool)
      modifies this
      ensures inputText == old(inputText)
      ensures exited ==> QuizAsWritten(questions, summaryText)
      ensures !exited ==> questions == old(questions)
      ensures KeyedIndices(Sentences(summaryText)) == [] && Sentences(summaryText) != [] ==> !exited
    {
      var generated;
      generated, exited := GenerateQuestionsAsWritten(summaryText, fuel);
      if exited {
        questions := generated;
      }
    }

    /**
     * The effect run when the screen opens or its `summary` parameter changes:
     * questions are generated only when a non-empty summary was passed.
     */
    method Open(summaryParam: Option<string>)
      modifies this
      ensures summaryParam.Some? && summaryParam.value != "" ==> Quiz(questions, summaryParam.value)
      ensures !(summaryParam.Some? && summaryParam.value != "") ==> questions == old(questions)
      ensures inputText == old(inputText)
    {
      if summaryParam.Some? && summaryParam.value != "" {
        GenerateQuestionsFor(summaryParam.value);
      }
    }
  }
}
