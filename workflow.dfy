/** The graph of twinewriter/workflow.py: the two routers, the successor of each node, and
    `run_twinewriter` driving the nodes over the session record until the end node. */
module Workflow {
  import opened Wrappers
  import opened Text
  import opened Models
  import Nodes
  import Splitter

  /** The graph's nodes; `End` is the library's terminal node. */
  datatype Node = Input | Generate | CheckLength | SplitThread | Review | Revise | Finalize | End

  /** `should_split_thread`: with an error, or with tweets already built, go to review;
      otherwise split. */
  function ShouldSplitThread(error: String, tweets: seq<TweetItem>): (next: Node)
    ensures next == SplitThread || next == Review
    ensures next == SplitThread <==> error == [] && tweets == []
  {
    if error != [] then Review
    else if tweets == [] then SplitThread
    else Review
  }

  /** `should_revise`: an error ends the run; then a revision request wins over an
      approval; with neither, the review is asked again. */
  function ShouldRevise(error: String, needsRevision: bool, approved: bool): (next: Node)
    ensures next == End <==> error != []
    ensures next == Revise <==> error == [] && needsRevision
    ensures next == Finalize <==> error == [] && !needsRevision && approved
    ensures next == Review <==> error == [] && !needsRevision && !approved
  {
    if error != [] then End
    else if needsRevision then Revise
    else if approved then Finalize
    else Review
  }

  /** Falls along every edge that does not consume a reviewer decision. */
  function Rank(node: Node): nat {
    match node
    case Input => 7
    case Generate => 6
    case Revise => 5
    case CheckLength => 4
    case SplitThread => 3
    case Review => 2
    case Finalize => 1
    case End => 0
  }

  /** The node that runs after `node`, given the record's routing fields: fixed edges from
      input, generate, split, revise and finalize, the routers after check and review. */
  function Next(node: Node, error: String, tweets: seq<TweetItem>, needsRevision: bool, approved: bool)
    : (next: Node)
    ensures next != Input
    ensures node == Input ==> next == Generate
    ensures node == SplitThread ==> next == Review
    ensures node == Review && error != [] ==> next == End
    ensures node == Review && error == [] && !needsRevision && !approved ==> next == Review
    ensures node == CheckLength && !(error == [] && tweets == []) ==> next == Review
    ensures next == Finalize <==> node == Review && error == [] && !needsRevision && approved
    ensures next == Revise <==> node == Review && error == [] && needsRevision
    ensures next == SplitThread <==> node == CheckLength && error == [] && tweets == []
    ensures next == CheckLength <==> node == Generate || node == Revise
    ensures node == End ==> next == End
    ensures node != Review && node != End ==> Rank(next) < Rank(node)
    ensures error != [] && node != Input ==> next == CheckLength || next == Review || next == End
  {
    match node
    case Input => Generate
    case Generate => CheckLength
    case CheckLength => ShouldSplitThread(error, tweets)
    case SplitThread => Review
    case Review => ShouldRevise(error, needsRevision, approved)
    case Revise => CheckLength
    case Finalize => End
    case End => End
  }

  /** What `run_twinewriter` returns from the last state: the final document when the run
      was approved without an error, nothing otherwise. */
  function SelectResult(approved: bool, error: String, finalJson: Option<Nodes.FinalDocument>)
    : (r: Option<Nodes.FinalDocument>)
    ensures r.Some? <==> approved && error == [] && finalJson.Some?
    ensures r.Some? ==> r == finalJson
  {
    if approved && error == [] then finalJson else None
  }

  /** Some call to the language model among the first `n` failed. */
  predicate SomeCallFailed(replies: seq<Nodes.LlmOutcome>, n: nat)
    requires n <= |replies|
  {
    n > 0 && (SomeCallFailed(replies, n - 1) || !replies[n - 1].Replied?)
  }

  /** The reviewer quit in one of the first `n` decisions. */
  predicate QuitWithin(decisions: seq<Nodes.Decision>, n: nat)
    requires n <= |decisions|
  {
    n > 0 && (QuitWithin(decisions, n - 1) || decisions[n - 1] == Nodes.Quit)
  }

  lemma {:induction false} SomeCallFailedMeans(replies: seq<Nodes.LlmOutcome>, n: nat)
    requires n <= |replies|
    ensures SomeCallFailed(replies, n) <==> exists k :: 0 <= k < n && !replies[k].Replied?
  {
    if n > 0 {
      SomeCallFailedMeans(replies, n - 1);
    }
  }

  lemma {:induction false} QuitWithinMeans(decisions: seq<Nodes.Decision>, n: nat)
    requires n <= |decisions|
    ensures QuitWithin(decisions, n) <==> Nodes.Quit in decisions[..n]
  {
    if n > 0 {
      QuitWithinMeans(decisions, n - 1);
      assert decisions[..n] == decisions[..n - 1] + [decisions[n - 1]];
    }
  }

  /** The number of revision requests among the first `n` decisions: each one costs the
      run one more call to the language model. */
  function CountRevise(decisions: seq<Nodes.Decision>, n: nat): (c: nat)
    requires n <= |decisions|
    ensures c <= n
  {
    if n == 0 then 0 else CountRevise(decisions, n - 1) + (if decisions[n - 1].Revise? then 1 else 0)
  }

  lemma {:induction false} CountReviseMono(decisions: seq<Nodes.Decision>, a: nat, b: nat)
    requires a <= b <= |decisions|
    ensures CountRevise(decisions, a) <= CountRevise(decisions, b)
  {
    if a < b {
      CountReviseMono(decisions, a, b - 1);
    }
  }

  lemma {:induction false} SomeCallFailedMono(replies: seq<Nodes.LlmOutcome>, a: nat, b: nat)
    requires a <= b <= |replies|
    ensures SomeCallFailed(replies, a) ==> SomeCallFailed(replies, b)
  {
    if a < b {
      SomeCallFailedMono(replies, a, b - 1);
    }
  }

  /** How a run ends: whether it reached the end node, and how many replies and decisions
      it consumed. */
  datatype Usage = Usage(finished: bool, replies: nat, decisions: nat)

  /** The run seen one review at a time, independently of the nodes: the review that
      consumes decision `d` comes after the first generation and one revision per earlier
      revision request. It ends the run when a call so far has failed, or on an approval or
      a quit; a revision request needs one more reply; every other answer reviews again. */
  function UsageFrom(replies: seq<Nodes.LlmOutcome>, decisions: seq<Nodes.Decision>, d: nat): Usage
    requires d <= |decisions| && 1 + CountRevise(decisions, d) <= |replies|
    decreases |decisions| - d
  {
    var r := 1 + CountRevise(decisions, d);
    if d == |decisions| then Usage(false, r, d)
    else if SomeCallFailed(replies, r) || decisions[d] == Nodes.Approve || decisions[d] == Nodes.Quit then
      Usage(true, r, d + 1)
    else if decisions[d].Revise? && r == |replies| then Usage(false, r, d + 1)
    else UsageFrom(replies, decisions, d + 1)
  }

  /** What a whole run consumes: nothing without a first reply, otherwise its reviews. */
  function RunUsage(replies: seq<Nodes.LlmOutcome>, decisions: seq<Nodes.Decision>): Usage {
    if replies == [] then Usage(false, 0, 0) else UsageFrom(replies, decisions, 0)
  }

  /** The review that consumes decision `k` lets the run go on: the decision is neither an
      approval nor a quit, and no call made before that review failed. */
  predicate Continues(replies: seq<Nodes.LlmOutcome>, decisions: seq<Nodes.Decision>, k: nat)
    requires k < |decisions|
  {
    decisions[k] != Nodes.Approve && decisions[k] != Nodes.Quit
    && 1 + CountRevise(decisions, k) <= |replies| && !SomeCallFailed(replies, 1 + CountRevise(decisions, k))
  }

  /** Every review before decision `d` let the run go on. */
  predicate GoesOn(replies: seq<Nodes.LlmOutcome>, decisions: seq<Nodes.Decision>, d: nat)
    requires d <= |decisions|
  {
    d == 0 || (GoesOn(replies, decisions, d - 1) && Continues(replies, decisions, d - 1))
  }

  lemma {:induction false} GoesOnMeans(replies: seq<Nodes.LlmOutcome>, decisions: seq<Nodes.Decision>, d: nat)
    requires d <= |decisions|
    ensures GoesOn(replies, decisions, d) <==> forall k: nat :: k < d ==> Continues(replies, decisions, k)
  {
    if d > 0 {
      GoesOnMeans(replies, decisions, d - 1);
    }
  }

  lemma {:induction false} UsageFromFacts(replies: seq<Nodes.LlmOutcome>, decisions: seq<Nodes.Decision>, d: nat)
    requires d <= |decisions| && 1 + CountRevise(decisions, d) <= |replies|
    requires GoesOn(replies, decisions, d)
    decreases |decisions| - d
    ensures var u := UsageFrom(replies, decisions, d);
      d <= u.decisions <= |decisions| && u.replies <= |replies|
      && (!u.finished ==> u.replies == |replies| || u.decisions == |decisions|)
      && (u.finished ==> u.decisions >= 1 && GoesOn(replies, decisions, u.decisions - 1))
      && (!u.finished ==> GoesOn(replies, decisions, u.decisions))
      && (u.finished ==>
            u.decisions >= 1
            && (decisions[u.decisions - 1] == Nodes.Approve || decisions[u.decisions - 1] == Nodes.Quit
                || SomeCallFailed(replies, u.replies)))
  {
    var r := 1 + CountRevise(decisions, d);
    if d == |decisions| {
      assert UsageFrom(replies, decisions, d) == Usage(false, r, d);
    } else if SomeCallFailed(replies, r) || decisions[d] == Nodes.Approve || decisions[d] == Nodes.Quit {
      assert UsageFrom(replies, decisions, d) == Usage(true, r, d + 1);
    } else if decisions[d].Revise? && r == |replies| {
      assert UsageFrom(replies, decisions, d) == Usage(false, r, d + 1);
      assert GoesOn(replies, decisions, d + 1);
    } else {
      assert UsageFrom(replies, decisions, d) == UsageFrom(replies, decisions, d + 1);
      assert GoesOn(replies, decisions, d + 1);
      UsageFromFacts(replies, decisions, d + 1);
    }
  }

  lemma {:induction false} UsageFromCount(replies: seq<Nodes.LlmOutcome>, decisions: seq<Nodes.Decision>, d: nat)
    requires d <= |decisions| && 1 + CountRevise(decisions, d) <= |replies|
    decreases |decisions| - d
    ensures var u := UsageFrom(replies, decisions, d);
      d <= u.decisions <= |decisions|
      && (u.decisions == d ==> !u.finished && u.replies == 1 + CountRevise(decisions, d))
      && (u.decisions >= 1 ==>
            CountRevise(decisions, u.decisions) <= u.replies <= 1 + CountRevise(decisions, u.decisions)
            && (!decisions[u.decisions - 1].Revise? ==> u.replies == 1 + CountRevise(decisions, u.decisions)))
  {
    var r := 1 + CountRevise(decisions, d);
    if d == |decisions| {
      assert UsageFrom(replies, decisions, d) == Usage(false, r, d);
    } else if SomeCallFailed(replies, r) || decisions[d] == Nodes.Approve || decisions[d] == Nodes.Quit {
      assert UsageFrom(replies, decisions, d) == Usage(true, r, d + 1);
    } else if decisions[d].Revise? && r == |replies| {
      assert UsageFrom(replies, decisions, d) == Usage(false, r, d + 1);
    } else {
      assert UsageFrom(replies, decisions, d) == UsageFrom(replies, decisions, d + 1);
      UsageFromCount(replies, decisions, d + 1);
    }
  }

  /** What a run's usage means: every decision but the last let the run go on (no approval,
      no quit, no failed call before it); a finished run stopped on an approval, a quit or a
      failed call; an unfinished one ran out of replies or decisions, and not on an approval
      or a quit; and the replies used are the first generation plus one per revision request
      (the last request's revision is missing when the run stopped before it). */
  lemma UsageFacts(replies: seq<Nodes.LlmOutcome>, decisions: seq<Nodes.Decision>)
    ensures var u := RunUsage(replies, decisions);
      u.replies <= |replies| && u.decisions <= |decisions|
      && (!u.finished ==> u.replies == |replies| || u.decisions == |decisions|)
      && (u.decisions >= 1 ==> GoesOn(replies, decisions, u.decisions - 1))
      && (!u.finished ==> GoesOn(replies, decisions, u.decisions))
      && (u.finished ==>
            u.decisions >= 1
            && (decisions[u.decisions - 1] == Nodes.Approve || decisions[u.decisions - 1] == Nodes.Quit
                || SomeCallFailed(replies, u.replies)))
      && (u.decisions == 0 ==> u.replies == (if replies == [] then 0 else 1))
      && (u.decisions >= 1 ==>
            CountRevise(decisions, u.decisions) <= u.replies <= 1 + CountRevise(decisions, u.decisions)
            && (!decisions[u.decisions - 1].Revise? ==> u.replies == 1 + CountRevise(decisions, u.decisions)))
  {
    if replies != [] {
      UsageFromFacts(replies, decisions, 0);
      UsageFromCount(replies, decisions, 0);
    }
  }

  /** Decision `j` is the first approval or quit, it is an approval, and no call failed
      before it. */
  ghost predicate ApprovedAt(replies: seq<Nodes.LlmOutcome>, decisions: seq<Nodes.Decision>, j: nat) {
    j < |decisions| && decisions[j] == Nodes.Approve
    && 1 + CountRevise(decisions, j) <= |replies| && !SomeCallFailed(replies, 1 + CountRevise(decisions, j))
    && forall k :: 0 <= k < j ==> decisions[k] != Nodes.Approve && decisions[k] != Nodes.Quit
  }

  lemma {:induction false} UsageFromApproval(replies: seq<Nodes.LlmOutcome>, decisions: seq<Nodes.Decision>,
                                             d: nat, j: nat)
    requires d <= j && ApprovedAt(replies, decisions, j)
    decreases j - d
    ensures 1 + CountRevise(decisions, d) <= |replies|
    ensures UsageFrom(replies, decisions, d) == Usage(true, 1 + CountRevise(decisions, j), j + 1)
  {
    CountReviseMono(decisions, d, j);
    SomeCallFailedMono(replies, 1 + CountRevise(decisions, d), 1 + CountRevise(decisions, j));
    if d < j {
      CountReviseMono(decisions, d + 1, j);
      UsageFromApproval(replies, decisions, d + 1, j);
    }
  }

  /** A run whose first approval comes before any quit and any failed call finishes at that
      approval, with one reply per revision request on top of the first, and no quit. */
  lemma UsageOfApproval(replies: seq<Nodes.LlmOutcome>, decisions: seq<Nodes.Decision>)
    ensures forall j: nat | ApprovedAt(replies, decisions, j) ::
      RunUsage(replies, decisions) == Usage(true, 1 + CountRevise(decisions, j), j + 1)
      && !QuitWithin(decisions, j + 1)
  {
    forall j: nat | ApprovedAt(replies, decisions, j)
      ensures RunUsage(replies, decisions) == Usage(true, 1 + CountRevise(decisions, j), j + 1)
      ensures !QuitWithin(decisions, j + 1)
    {
      UsageFromApproval(replies, decisions, 0, j);
      QuitWithinMeans(decisions, j + 1);
    }
  }

  /** The inputs of one run: the arguments of `run_twinewriter`, the language model's
      answers to the generation and revision calls in order, the reviewer's decisions in
      order, and the finalizer's timestamp. */
  datatype Script = Script(topic: String, tone: String, baseContent: String,
                           replies: seq<Nodes.LlmOutcome>, decisions: seq<Nodes.Decision>,
                           timestamp: String)

  /** The tone after `input_node`. */
  function EffectiveTone(tone: String): String {
    if tone == [] then "professional" else tone
  }

  /** The first generation call fails. */
  predicate GenerationFails(sc: Script) {
    |sc.replies| > 0 && !sc.replies[0].Replied?
  }

  /** The reviewer quits at the first review. */
  predicate QuitsFirst(sc: Script) {
    sc.decisions != [] && sc.decisions[0] == Nodes.Quit
  }

  /** The first reply succeeds and the first decision approves. */
  predicate ApprovesFirst(sc: Script) {
    |sc.replies| > 0 && sc.replies[0].Replied? && sc.decisions != [] && sc.decisions[0] == Nodes.Approve
  }

  /** The tweets the first review sees for a draft under the default budget of 280: the
      draft as one tweet when it fits, otherwise the split thread. */
  function FirstThread(raw: String): seq<TweetItem> {
    if |raw| <= 280 then [TweetItem(1, raw, |raw|)] else Splitter.SplitThread(raw, 280)
  }

  /** What holds each time the run is about to execute `node`, after `r` replies and `d`
      decisions have been used: the record keeps its invariant and the topic; the error is
      set exactly when a call failed or the reviewer quit; the record is approved only
      right after an approval, on the way to the end; a final document exists only at the
      end of an approved, error-free run, and the end is reached only with an error or a
      document. */
  ghost predicate RunInv(sc: Script, state: Nodes.AgentState, node: Node, r: nat, d: nat)
    reads state
  {
    r <= |sc.replies| && d <= |sc.decisions|
    && state.Valid()
    && state.topic == sc.topic
    && (node == Input ==>
          r == 0 && d == 0 && state.tone == sc.tone && state.finalJson == None
          && !state.approved && state.error == [])
    && (node != Input ==> state.tone == EffectiveTone(sc.tone))
    && (node == Generate ==> r == 0 && d == 0)
    && (node != Input && node != Generate ==> r >= 1)
    && (d == 0 ==> node in {Input, Generate, CheckLength, SplitThread, Review})
    && (state.error != [] <==> SomeCallFailed(sc.replies, r) || QuitWithin(sc.decisions, d))
    && (state.approved ==>
          d >= 1 && sc.decisions[d - 1] == Nodes.Approve && (node == Finalize || node == End))
    && (node == Finalize ==> state.approved && state.error == [] && state.finalJson == None)
    && (state.finalJson.Some? ==>
          node == End && state.approved && state.error == []
          && state.finalJson.value == Nodes.FinalizeRecord(state.topic, state.tone, state.tweets, sc.timestamp))
    && (node == End ==> state.error != [] || state.finalJson.Some?)
    && (GenerationFails(sc) && r >= 1 ==>
          r == 1 && ((node == CheckLength && d == 0) || (node == Review && d == 0) || (node == End && d == 1)))
    && (QuitsFirst(sc) && d >= 1 ==> node == End && state.error != [])
    && state.maxTweetLength == 280
    && (node != End ==> !QuitWithin(sc.decisions, d))
    && (state.needsRevision ==> node == Revise || state.error != [])
    && (node in {CheckLength, SplitThread, Review} ==>
          r == 1 + CountRevise(sc.decisions, d)
          && UsageFrom(sc.replies, sc.decisions, d) == RunUsage(sc.replies, sc.decisions))
    && (node == Revise ==>
          d >= 1 && sc.decisions[d - 1].Revise? && r == CountRevise(sc.decisions, d)
          && (r == |sc.replies| ==> RunUsage(sc.replies, sc.decisions) == Usage(false, r, d))
          && (r < |sc.replies| ==> UsageFrom(sc.replies, sc.decisions, d) == RunUsage(sc.replies, sc.decisions)))
    && (node == Finalize || node == End ==> RunUsage(sc.replies, sc.decisions) == Usage(true, r, d))
    && (ApprovesFirst(sc) && r >= 1 ==>
          r == 1 && state.error == [] && state.rawContent == Strip(sc.replies[0].text)
          && (node == CheckLength ==> d == 0)
          && (node == SplitThread ==> d == 0 && state.tweets == [] && |state.rawContent| > 280)
          && (node == Review ==> d == 0 && state.tweets == FirstThread(state.rawContent))
          && (d >= 1 ==>
                d == 1 && state.tweets == FirstThread(state.rawContent)
                && (node == Finalize || (node == End && state.finalJson.Some?))))
  }

  /** Running the input node. */
  method InputStep(sc: Script, state: Nodes.AgentState, r: nat, d: nat) returns (next: Node)
    requires RunInv(sc, state, Input, r, d)
    modifies state
    ensures next == Generate && RunInv(sc, state, next, r, d)
  {
    state.InputNode();
    next := Next(Input, state.error, state.tweets, state.needsRevision, state.approved);
  }

  /** Running the generation node on the next reply. */
  method GenerateStep(sc: Script, state: Nodes.AgentState, r: nat, d: nat) returns (next: Node)
    requires r < |sc.replies| && RunInv(sc, state, Generate, r, d)
    modifies state
    ensures next == CheckLength && RunInv(sc, state, next, r + 1, d)
  {
    state.ContentGeneration(sc.replies[r]);
    next := Next(Generate, state.error, state.tweets, state.needsRevision, state.approved);
  }

  /** Running the length checker. */
  method CheckStep(sc: Script, state: Nodes.AgentState, r: nat, d: nat) returns (next: Node)
    requires RunInv(sc, state, CheckLength, r, d)
    modifies state
    ensures Rank(next) < Rank(CheckLength) && RunInv(sc, state, next, r, d)
  {
    state.LengthChecker();
    next := Next(CheckLength, state.error, state.tweets, state.needsRevision, state.approved);
  }

  /** Running the thread splitter. */
  method SplitStep(sc: Script, state: Nodes.AgentState, r: nat, d: nat) returns (next: Node)
    requires RunInv(sc, state, SplitThread, r, d)
    modifies state
    ensures next == Review && RunInv(sc, state, next, r, d)
  {
    state.ThreadSplitter();
    next := Next(SplitThread, state.error, state.tweets, state.needsRevision, state.approved);
  }

  /** Running the review node on the next decision. */
  method ReviewStep(sc: Script, state: Nodes.AgentState, r: nat, d: nat) returns (next: Node)
    requires d < |sc.decisions| && RunInv(sc, state, Review, r, d)
    modifies state
    ensures RunInv(sc, state, next, r, d + 1)
  {
    state.HumanReview(sc.decisions[d]);
    next := Next(Review, state.error, state.tweets, state.needsRevision, state.approved);
  }

  /** Running the revision node on the next reply. */
  method ReviseStep(sc: Script, state: Nodes.AgentState, r: nat, d: nat) returns (next: Node)
    requires r < |sc.replies| && RunInv(sc, state, Revise, r, d)
    modifies state
    ensures next == CheckLength && RunInv(sc, state, next, r + 1, d)
  {
    state.Revision(sc.replies[r]);
    next := Next(Revise, state.error, state.tweets, state.needsRevision, state.approved);
  }

  /** Running the finalizer. */
  method FinalizeStep(sc: Script, state: Nodes.AgentState, r: nat, d: nat) returns (next: Node)
    requires RunInv(sc, state, Finalize, r, d)
    modifies state
    ensures next == End && RunInv(sc, state, next, r, d)
  {
    state.Finalizer(sc.timestamp);
    next := Next(Finalize, state.error, state.tweets, state.needsRevision, state.approved);
  }

  /** The run cannot go on from `node`: it needs a reply or a decision and none is left. */
  predicate Stuck(sc: Script, node: Node, r: nat, d: nat) {
    ((node == Generate || node == Revise) && r == |sc.replies|) || (node == Review && d == |sc.decisions|)
  }

  /** One pass of the graph's loop: run `node` and move to its successor, consuming a reply
      at generate and revise and a decision at review. */
  method Step(sc: Script, state: Nodes.AgentState, node: Node, r: nat, d: nat)
    returns (next: Node, r': nat, d': nat)
    requires node != End && !Stuck(sc, node, r, d) && RunInv(sc, state, node, r, d)
    modifies state
    ensures RunInv(sc, state, next, r', d')
    ensures d' > d || (d' == d && Rank(next) < Rank(node))
  {
    r', d' := r, d;
    match node {
      case Input => next := InputStep(sc, state, r, d);
      case Generate => next := GenerateStep(sc, state, r, d); r' := r + 1;
      case CheckLength => next := CheckStep(sc, state, r, d);
      case SplitThread => next := SplitStep(sc, state, r, d);
      case Review => next := ReviewStep(sc, state, r, d); d' := d + 1;
      case Revise => next := ReviseStep(sc, state, r, d); r' := r + 1;
      case Finalize => next := FinalizeStep(sc, state, r, d);
    }
  }

  /** `run_twinewriter`: build the initial record and run the graph from the input node.
      `replies` are the model's answers to the generation and revision calls in order,
      `decisions` the reviewer's answers in order; when one of them is used up before the
      end node, the run stops with `finished` false. `rUsed` and `dUsed` count the replies
      and decisions the run consumed; together with `finished` they are what `RunUsage`
      predicts. */
  method RunTwinewriter(topic: String, tone: String, baseContent: String,
                        replies: seq<Nodes.LlmOutcome>, decisions: seq<Nodes.Decision>,
                        timestamp: String)
    returns (result: Option<Nodes.FinalDocument>, finished: bool, ghost rUsed: nat, ghost dUsed: nat)
    ensures rUsed <= |replies| && dUsed <= |decisions|
    ensures result.Some? ==> finished && dUsed >= 1 && decisions[dUsed - 1] == Nodes.Approve
    ensures result.Some? ==>
      var doc := result.value;
      doc.status == "approved" && doc.timestamp == timestamp && doc.topic == topic
      && doc.tone == EffectiveTone(tone)
      && doc.totalTweets == |doc.thread| && (doc.isThread <==> |doc.thread| > 1)
      && forall i :: 0 <= i < |doc.thread| ==>
           doc.thread[i].index == i + 1 && doc.thread[i].charCount == |doc.thread[i].content|
           && (|doc.thread| > 1 ==> ThreadPrefix(i + 1, |doc.thread|) <= doc.thread[i].content)
    ensures SomeCallFailed(replies, rUsed) || QuitWithin(decisions, dUsed) ==> result == None
    ensures finished ==> (result.Some? <==> !SomeCallFailed(replies, rUsed) && !QuitWithin(decisions, dUsed))
    ensures |replies| > 0 && !replies[0].Replied? ==>
      result == None && rUsed == 1 && dUsed == (if decisions == [] then 0 else 1)
      && (finished <==> decisions != [])
    ensures |replies| > 0 && decisions != [] && decisions[0] == Nodes.Quit ==>
      result == None && finished
    ensures !finished ==> rUsed == |replies| || dUsed == |decisions|
    ensures Usage(finished, rUsed, dUsed) == RunUsage(replies, decisions)
    ensures forall j: nat | ApprovedAt(replies, decisions, j) ::
      result.Some? && rUsed == 1 + CountRevise(decisions, j) && dUsed == j + 1
    ensures |replies| > 0 && replies[0].Replied? && decisions != [] && decisions[0] == Nodes.Approve ==>
      finished && rUsed == 1 && dUsed == 1
      && result == Some(Nodes.FinalizeRecord(topic, EffectiveTone(tone),
                                             FirstThread(Strip(replies[0].text)), timestamp))
  {
    var sc := Script(topic, tone, baseContent, replies, decisions, timestamp);
    var state := new Nodes.AgentState(topic, tone, baseContent);
    var node := Input;
    var r, d := 0, 0;
    while node != End && !Stuck(sc, node, r, d)
      invariant RunInv(sc, state, node, r, d)
      decreases |decisions| - d, Rank(node)
    {
      node, r, d := Step(sc, state, node, r, d);
    }
    finished := node == End;
    rUsed, dUsed := r, d;
    result := SelectResult(state.approved, state.error, state.finalJson);
    if result.Some? {
      Nodes.FinalThreadValid(state.topic, state.tone, state.tweets, timestamp);
    }
    UsageOfApproval(replies, decisions);
  }
}
