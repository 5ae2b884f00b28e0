/** The nodes of twinewriter/nodes.py as methods on the shared session record
    (`AgentState` of twinewriter/models.py). The language model and the terminal are not
    called: what they would return is passed in. */
module Nodes {
  import opened Wrappers
  import opened Text
  import opened Models
  import opened Splitter

  /** What one use of the language model gives: `get_llm()` raised, `llm.invoke()` raised,
      or the model replied with some text. */
  datatype LlmOutcome = InitFailed(reason: String) | CallFailed(reason: String) | Replied(text: String)

  /** One answer of the reviewer: approve, edit tweet `number` with `text`, an edit whose
      tweet number does not parse as an integer, revise with feedback, quit, or any other
      choice. */
  datatype Decision =
    | Approve
    | Edit(number: int, text: String)
    | EditBadNumber
    | Revise(feedback: String)
    | Quit
    | Unrecognised

  /** The choice letter typed at the review prompt, ignoring surrounding whitespace and case. */
  predicate ChoiceIs(choice: String, letter: char)
    requires 'a' <= letter <= 'z'
  {
    Strip(choice) == [letter] || Strip(choice) == [(letter - 'a' + 'A') as char]
  }

  /** The decision the review prompt reads: the choice is stripped and lower-cased; an edit
      also reads a tweet number (`None` when `int()` fails) and then the new text; a
      revision reads the feedback. */
  function ReadDecision(choice: String, number: Option<int>, answer: String): (d: Decision)
    ensures d == Approve <==> ChoiceIs(choice, 'a')
    ensures d.Edit? <==> ChoiceIs(choice, 'e') && number.Some?
    ensures d.Edit? ==> d == Edit(number.value, answer)
    ensures d == EditBadNumber <==> ChoiceIs(choice, 'e') && number.None?
    ensures d.Revise? <==> ChoiceIs(choice, 'r')
    ensures d.Revise? ==> d.feedback == answer
    ensures d == Quit <==> ChoiceIs(choice, 'q')
    ensures d == Unrecognised <==>
      !ChoiceIs(choice, 'a') && !ChoiceIs(choice, 'e') && !ChoiceIs(choice, 'r') && !ChoiceIs(choice, 'q')
  {
    var c := Lower(Strip(choice));
    LowerIsLetter(Strip(choice), 'a');
    LowerIsLetter(Strip(choice), 'e');
    LowerIsLetter(Strip(choice), 'r');
    LowerIsLetter(Strip(choice), 'q');
    if c == "a" then Approve
    else if c == "e" then (if number.Some? then Edit(number.value, answer) else EditBadNumber)
    else if c == "r" then Revise(answer)
    else if c == "q" then Quit
    else Unrecognised
  }

  /** The tweet list after editing tweet `n`: only that tweet is replaced; it gets index
      `n`, the stripped new text behind the prefix for its position and the current thread
      length (no prefix when the list has one tweet), and a fresh character count. */
  function EditTweet(tweets: seq<TweetItem>, n: int, text: String): (r: seq<TweetItem>)
    requires 1 <= n <= |tweets|
    ensures |r| == |tweets|
    ensures forall i :: 0 <= i < |tweets| && i != n - 1 ==> r[i] == tweets[i]
    ensures r[n - 1].index == n && WellFormed(r[n - 1])
    ensures r[n - 1].content == (if |tweets| > 1 then ThreadPrefix(n, |tweets|) else []) + Strip(text)
  {
    var content := if |tweets| > 1 then ThreadPrefix(n, |tweets|) + Strip(text) else Strip(text);
    tweets[n - 1 := TweetItem(n, content, |content|)]
  }

  /** An edit keeps the tweet list's invariant: the new tweet keeps its index, gets a fresh
      count and, in a thread, the prefix for its position. */
  lemma EditKeepsThreadValid(tweets: seq<TweetItem>, n: int, text: String)
    requires 1 <= n <= |tweets|
    requires ThreadValid(tweets)
    ensures ThreadValid(EditTweet(tweets, n, text))
  {
    var r := EditTweet(tweets, n, text);
    forall i | 0 <= i < |r|
      ensures r[i].index == i + 1 && WellFormed(r[i])
      ensures |r| > 1 ==> ThreadPrefix(i + 1, |r|) <= r[i].content
    {
      if i == n - 1 {
        if |r| > 1 {
          var p := ThreadPrefix(n, |tweets|);
          assert r[i].content[..|p|] == p;
        }
      } else {
        assert r[i] == tweets[i];
      }
    }
  }

  /** One entry of the exported `thread` list. */
  datatype ThreadEntry = ThreadEntry(index: int, content: String, charCount: int)

  /** The `final_json` document. */
  datatype FinalDocument = FinalDocument(
    status: String, timestamp: String, topic: String, tone: String,
    thread: seq<ThreadEntry>, totalTweets: int, isThread: bool)

  function EntryOf(t: TweetItem): ThreadEntry {
    ThreadEntry(t.index, t.content, t.charCount)
  }

  function TweetOf(e: ThreadEntry): TweetItem {
    TweetItem(e.index, e.content, e.charCount)
  }

  /** The projection `finalizer_node` builds from the record; the timestamp is passed in. */
  function FinalizeRecord(topic: String, tone: String, tweets: seq<TweetItem>, timestamp: String)
    : (doc: FinalDocument)
    ensures doc.status == "approved" && doc.timestamp == timestamp
    ensures doc.topic == topic && doc.tone == tone
    ensures |doc.thread| == |tweets| == doc.totalTweets
    ensures doc.isThread <==> |tweets| > 1
  {
    FinalDocument("approved", timestamp, topic, tone,
      seq(|tweets|, i requires 0 <= i < |tweets| => EntryOf(tweets[i])),
      |tweets|, |tweets| > 1)
  }

  /** The exported thread lists every tweet, in order, with its index, content and count:
      reading the entries back gives the tweet list. */
  lemma FinalThreadRoundTrip(topic: String, tone: String, tweets: seq<TweetItem>, timestamp: String)
    ensures var thread := FinalizeRecord(topic, tone, tweets, timestamp).thread;
      seq(|thread|, i requires 0 <= i < |thread| => TweetOf(thread[i])) == tweets
  {
  }

  /** The exported thread of a valid tweet list is numbered 1..N with correct counts and,
      when it has several entries, carries the numbering prefixes. */
  lemma FinalThreadValid(topic: String, tone: String, tweets: seq<TweetItem>, timestamp: String)
    requires ThreadValid(tweets)
    ensures var thread := FinalizeRecord(topic, tone, tweets, timestamp).thread;
      forall i :: 0 <= i < |thread| ==>
        thread[i].index == i + 1 && thread[i].charCount == |thread[i].content|
        && (|thread| > 1 ==> ThreadPrefix(i + 1, |thread|) <= thread[i].content)
  {
  }

  /** Finalizing the same record twice gives the same document up to the timestamp. */
  lemma FinalizeDeterministic(topic: String, tone: String, tweets: seq<TweetItem>, t1: String, t2: String)
    ensures FinalizeRecord(topic, tone, tweets, t1).(timestamp := t2) == FinalizeRecord(topic, tone, tweets, t2)
  {
  }

  /** The session record shared by all nodes. */
  class AgentState {
    var topic: String
    var tone: String
    var baseContent: String
    var maxTweetLength: int
    var rawContent: String
    var tweets: seq<TweetItem>
    var humanFeedback: String
    var needsRevision: bool
    var approved: bool
    var finalJson: Option<FinalDocument>
    var error: String

    /** The tweet list keeps its numbering and character counts consistent. */
    ghost predicate Valid()
      reads this
    {
      ThreadValid(tweets)
    }

    /** The initial record `run_twinewriter` starts the graph with (`final_json` is `{}`,
        modelled as `None`). */
    constructor (topic: String, tone: String, baseContent: String)
      ensures this.topic == topic && this.tone == tone && this.baseContent == baseContent
      ensures maxTweetLength == 280 && rawContent == [] && tweets == [] && humanFeedback == []
      ensures !needsRevision && !approved && finalJson == None && error == []
      ensures Valid()
    {
      this.topic := topic;
      this.tone := tone;
      this.baseContent := baseContent;
      maxTweetLength := 280;
      rawContent := [];
      tweets := [];
      humanFeedback := [];
      needsRevision := false;
      approved := false;
      finalJson := None;
      error := [];
    }

    /** `input_node`: default the length budget (a missing key is modelled as 0) and the
        tone, clear both decision flags and the error. */
    method InputNode()
      modifies this
      ensures maxTweetLength == if old(maxTweetLength) == 0 then 280 else old(maxTweetLength)
      ensures tone == if old(tone) == [] then "professional" else old(tone)
      ensures !needsRevision && !approved && error == []
      ensures topic == old(topic) && baseContent == old(baseContent)
      ensures rawContent == old(rawContent) && tweets == old(tweets)
      ensures humanFeedback == old(humanFeedback) && finalJson == old(finalJson)
    {
      if maxTweetLength == 0 {
        maxTweetLength := 280;
      }
      if tone == [] {
        tone := "professional";
      }
      needsRevision := false;
      approved := false;
      error := [];
    }

    /** `content_generation_node`: on a reply, store it stripped; on a failure, record the
        error and leave the draft alone. */
    method ContentGeneration(outcome: LlmOutcome)
      modifies this
      ensures outcome.InitFailed? ==> error == "LLM initialization failed: " + outcome.reason
      ensures outcome.CallFailed? ==> error == "Content generation failed: " + outcome.reason
      ensures outcome.Replied? ==> error == old(error)
      ensures rawContent == if outcome.Replied? then Strip(outcome.text) else old(rawContent)
      ensures topic == old(topic) && tone == old(tone) && baseContent == old(baseContent)
      ensures maxTweetLength == old(maxTweetLength) && tweets == old(tweets)
      ensures humanFeedback == old(humanFeedback) && finalJson == old(finalJson)
      ensures needsRevision == old(needsRevision) && approved == old(approved)
    {
      match outcome {
        case InitFailed(reason) =>
          error := "LLM initialization failed: " + reason;
        case CallFailed(reason) =>
          error := "Content generation failed: " + reason;
        case Replied(text) =>
          rawContent := Strip(text);
      }
    }

    /** `length_checker_node`: a draft that fits becomes one unnumbered tweet; otherwise the
        list is emptied so that the splitter runs. */
    method LengthChecker()
      modifies this
      ensures tweets == if |rawContent| <= maxTweetLength
        then [TweetItem(1, rawContent, |rawContent|)] else []
      ensures Valid()
      ensures topic == old(topic) && tone == old(tone) && baseContent == old(baseContent)
      ensures maxTweetLength == old(maxTweetLength) && rawContent == old(rawContent)
      ensures humanFeedback == old(humanFeedback) && finalJson == old(finalJson)
      ensures needsRevision == old(needsRevision) && approved == old(approved) && error == old(error)
    {
      var maxLength := maxTweetLength;
      var contentLength := |rawContent|;
      if contentLength <= maxLength {
        tweets := [TweetItem(1, rawContent, contentLength)];
      } else {
        tweets := [];
      }
    }

    /** `thread_splitter_node`: leave a non-empty tweet list alone; otherwise split the draft
        with `max_tweet_length - 6` characters per chunk and number the chunks. */
    method ThreadSplitter()
      modifies this
      ensures tweets == if old(tweets) != [] then old(tweets) else SplitThread(rawContent, maxTweetLength)
      ensures old(Valid()) ==> Valid()
      ensures topic == old(topic) && tone == old(tone) && baseContent == old(baseContent)
      ensures maxTweetLength == old(maxTweetLength) && rawContent == old(rawContent)
      ensures humanFeedback == old(humanFeedback) && finalJson == old(finalJson)
      ensures needsRevision == old(needsRevision) && approved == old(approved) && error == old(error)
    {
      if tweets != [] {
        return;
      }
      tweets := SplitDraft(rawContent, maxTweetLength);
    }

    /** `human_review_node`, with the terminal answers given as a decision. */
    method HumanReview(decision: Decision)
      modifies this
      ensures decision == Approve ==> approved && !needsRevision
      ensures decision.Edit? ==>
        tweets == (if 1 <= decision.number <= |old(tweets)|
          then EditTweet(old(tweets), decision.number, decision.text) else old(tweets))
      ensures decision.Edit? || decision == Unrecognised ==> !approved && !needsRevision
      ensures decision == EditBadNumber ==> approved == old(approved) && needsRevision == old(needsRevision)
      ensures decision.Revise? ==> humanFeedback == Strip(decision.feedback) && needsRevision && !approved
      ensures decision == Quit ==> error == "User cancelled"
      ensures decision == Quit ==> approved == old(approved) && needsRevision == old(needsRevision)
      ensures !decision.Edit? ==> tweets == old(tweets)
      ensures !decision.Revise? ==> humanFeedback == old(humanFeedback)
      ensures decision != Quit ==> error == old(error)
      ensures old(Valid()) ==> Valid()
      ensures topic == old(topic) && tone == old(tone) && baseContent == old(baseContent)
      ensures maxTweetLength == old(maxTweetLength) && rawContent == old(rawContent)
      ensures finalJson == old(finalJson)
    {
      match decision {
        case Approve =>
          approved := true;
          needsRevision := false;
        case EditBadNumber =>
          return;
        case Edit(tweetNum, text) =>
          if 1 <= tweetNum <= |tweets| {
            if Valid() {
              EditKeepsThreadValid(tweets, tweetNum, text);
            }
            tweets := EditTweet(tweets, tweetNum, text);
            needsRevision := false;
            approved := false;
          } else {
            needsRevision := false;
            approved := false;
          }
        case Revise(feedback) =>
          humanFeedback := Strip(feedback);
          needsRevision := true;
          approved := false;
        case Quit =>
          error := "User cancelled";
        case Unrecognised =>
          needsRevision := false;
          approved := false;
      }
    }

    /** `revision_node`: on a reply, store it stripped as the new draft, drop the tweets so
        that they are rebuilt, and clear the revision request; on a failure, record the
        error and change nothing else. */
    method Revision(outcome: LlmOutcome)
      modifies this
      ensures outcome.InitFailed? ==> error == "LLM initialization failed: " + outcome.reason
      ensures outcome.CallFailed? ==> error == "Revision failed: " + outcome.reason
      ensures outcome.Replied? ==> error == old(error)
      ensures rawContent == if outcome.Replied? then Strip(outcome.text) else old(rawContent)
      ensures tweets == if outcome.Replied? then [] else old(tweets)
      ensures needsRevision == if outcome.Replied? then false else old(needsRevision)
      ensures old(Valid()) ==> Valid()
      ensures topic == old(topic) && tone == old(tone) && baseContent == old(baseContent)
      ensures maxTweetLength == old(maxTweetLength) && humanFeedback == old(humanFeedback)
      ensures finalJson == old(finalJson) && approved == old(approved)
    {
      match outcome {
        case InitFailed(reason) =>
          error := "LLM initialization failed: " + reason;
        case CallFailed(reason) =>
          error := "Revision failed: " + reason;
        case Replied(text) =>
          rawContent := Strip(text);
          tweets := [];
          needsRevision := false;
      }
    }

    /** `finalizer_node`: store the final document built from the record. */
    method Finalizer(timestamp: String)
      modifies this
      ensures finalJson == Some(FinalizeRecord(topic, tone, tweets, timestamp))
      ensures topic == old(topic) && tone == old(tone) && baseContent == old(baseContent)
      ensures maxTweetLength == old(maxTweetLength) && rawContent == old(rawContent)
      ensures tweets == old(tweets) && humanFeedback == old(humanFeedback)
      ensures needsRevision == old(needsRevision) && approved == old(approved) && error == old(error)
    {
      finalJson := Some(FinalizeRecord(topic, tone, tweets, timestamp));
    }
  }
}
