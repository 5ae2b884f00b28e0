# TwineWriter core in Dafny

TwineWriter drafts social-media content with a language model and turns it into a
thread of tweets. A human reviewer then approves the thread, edits single tweets,
asks for a revision or quits. This project models the core of that pipeline.

- **The session record** (`AgentState`) is a class whose fields the nodes update in
  place.
- **The seven graph nodes** are methods on that record: input, content generation,
  length check, thread splitter, human review, revision and finalizer.
- **The two routers** and the graph's edges are functions.
- **The driver** `run_twinewriter` is a method with a loop that runs the nodes until
  the end node.
- **The thread splitter** is modelled in the most detail. It:
  - cuts the draft into sentences (`re.split(r'(?<=[.!?])\s+')`);
  - packs the sentences greedily into chunks of `max_tweet_length - 6` characters;
  - packs word by word (`str.split()`) for any sentence longer than that;
  - numbers the chunks `"{i}/{N} "`.

The splitter is specified by pure functions: `Sentences`, `Pieces`, `Step`, `Fold`,
`Flush` and `Chunks`. The loop method `PackChunks` is proved equal to them. Whitespace
is the set of characters for which `str.isspace()` holds; `\s` in `re`, `str.strip()`
and `str.split()` all use that set. The main properties proved are:

- Splitting neither loses nor adds a word, nor changes their order.
- Every chunk is trimmed and non-empty.
- Every chunk fits the budget, unless the chunk is a single over-long word.
- A blank draft gives no tweet.
- With at most 99 tweets and no over-long word, every numbered tweet fits `max_tweet_length`.
- Edits, revisions and splits keep the tweet list's numbering invariant (`ThreadValid`).
- A run returns a document only when its last decision was an approval. It returns nothing
  once any model call has failed or the reviewer has quit. A run that reaches the end
  returns a document exactly when neither happened. A run that stops early has used up its
  replies or its decisions. A first draft approved at the first review is returned as
  the final document.
- How many replies and decisions a run consumes, and whether it reaches the end, is
  exactly what `RunUsage` gives. `RunUsage` describes the run one review at a time:
  every review but the last let the run go on, and every revision request costs one
  more reply. A run whose first approval comes before any quit and any failed call
  returns a document at that approval.

Modules:

| module | file | contents |
|---|---|---|
| `Wrappers` | `wrappers.dfy` | `Option` |
| `Text` | `text.dfy` | `str.strip()`, `str.split()`, ASCII `lower()`, decimal rendering of integers |
| `Models` | `models.dfy` | `TweetItem`, the thread prefix, `__str__` |
| `Splitter` | `splitter.dfy` | the thread splitter |
| `Nodes` | `nodes.dfy` | the decisions, the edit, the final document and the `AgentState` class with the node methods |
| `Workflow` | `workflow.dfy` | the routers, the successor function and `RunTwinewriter` |

## Model

| member | source | states |
|---|---|---|
| Text.StripBounds | twinewriter/nodes.py:73 | `strip()` returns the slice between the first and the last non-whitespace character; everything cut off is whitespace, and an all-whitespace string gives the empty string |
| Text.StripTrims | twinewriter/nodes.py:73 | a stripped string is no longer than the input and neither starts nor ends with whitespace |
| Text.StripKeepsWords | twinewriter/nodes.py:139 | stripping a chunk keeps exactly its words, in order |
| Text.StripEmptyIffAllSpace | twinewriter/nodes.py:152 | `current_tweet.strip()` is empty exactly when the current text is empty or only whitespace |
| Text.StripWordSpace | twinewriter/nodes.py:140 | stripping `word + " "` gives the word back |
| Text.WordsAreWords | twinewriter/nodes.py:133 | every item `str.split()` returns is a non-empty run of non-whitespace characters |
| Text.NoWordsIffAllSpace | twinewriter/nodes.py:133 | `str.split()` returns nothing exactly for an empty or all-whitespace string |
| Text.WordsSeparated | twinewriter/nodes.py:125 | a whitespace run between two texts separates their words: the words of the whole are the words of the left text followed by those of the right |
| Text.WordsAppendPiece | twinewriter/nodes.py:136 | appending `piece + " "` to a current text that is empty or ends in whitespace appends exactly the piece's words |
| Text.WordsOfAllWords | twinewriter/nodes.py:133-134 | the words of a list of words are that list |
| Text.NatToStringRoundTrip | twinewriter/nodes.py:160 | the decimal rendering of a number in the prefix reads back as that number |
| Text.NatToStringLength | twinewriter/nodes.py:160 | the rendering has one digit below 10, two from 10 to 99 and at least three from 100 on |
| Text.LowerIsLetter | twinewriter/nodes.py:191 | a choice lowers to a given lower-case letter exactly when it is that letter in either case |
| Models.ThreadPrefix | twinewriter/nodes.py:160 | the prefix `"{i}/{N} "` is at least 4 characters, two more than its digits, and ends in a space |
| Models.PrefixReserve | twinewriter/nodes.py:120-122 | the 6 reserved characters hold every prefix of a thread of at most 99 tweets; from 100 tweets on, tweet 10 and every later tweet need at least 7 |
| Models.Render | twinewriter/models.py:12-13 | `__str__` is `[index] `, then the content, then ` (` and the character count, then ` chars)` |
| Splitter.FirstBreak | twinewriter/nodes.py:125 | the returned position is the end of the text or a position where a match of the sentence pattern starts (a terminator before, whitespace at it); that no match comes earlier is `FirstBreakIsFirst` |
| Splitter.FirstBreakIsFirst | twinewriter/nodes.py:125 | no match starts before the position `FirstBreak` returns: the split uses the leftmost match |
| Splitter.SpaceEndFacts | twinewriter/nodes.py:125 | the greedy `\s+` consumes the whole whitespace run and stops at the first non-whitespace character |
| Splitter.SentencesShape | twinewriter/nodes.py:125 | every segment but the last is non-empty and ends with `.`, `!` or `?`, and no segment contains a further break |
| Splitter.SentencesKeepWords | twinewriter/nodes.py:125 | the words of the segments, in order, are the words of the draft |
| Splitter.SentencesRebuild | twinewriter/nodes.py:125 | putting the consumed whitespace runs back between the segments gives the draft again; every run is non-empty whitespace, and a segment after a run does not start with whitespace (the whole run was consumed) |
| Splitter.SentencesFromJoin | twinewriter/nodes.py:125 | from any position, the segments and consumed runs interleaved give back the rest of the text |
| Splitter.SeparatorsAreSpace | twinewriter/nodes.py:125 | every run a match consumes is non-empty whitespace |
| Splitter.SegmentsStartNonSpace | twinewriter/nodes.py:125 | a segment after a break is empty or starts with a non-whitespace character |
| Splitter.PiecesFit | twinewriter/nodes.py:130-133 | every unit the loop appends is within the budget or is a single word |
| Splitter.PiecesKeepWords | twinewriter/nodes.py:130-134 | trading each over-long sentence for its words keeps the words in order |
| Splitter.PiecesHaveWords | twinewriter/nodes.py:130-134 | when every sentence but the last holds a word, so does every unit but the last |
| Splitter.ClosedChunkFits | twinewriter/nodes.py:138-139 | closing the current text gives a chunk within the budget, unless it is a single over-long word |
| Splitter.ClosedChunkGood | twinewriter/nodes.py:147-148 | appending the closed chunk keeps every chunk trimmed, non-empty and within the budget, and moves the current words into the chunks |
| Splitter.StepInv | twinewriter/nodes.py:134-149 | one iteration, for a sentence or a word, preserves the loop invariant: words kept in order, chunks good, current text well shaped |
| Splitter.FoldInv | twinewriter/nodes.py:130-149 | the invariant holds after the whole loop |
| Splitter.ChunksKeepWords | twinewriter/nodes.py:125-153 | the chunks hold exactly the words of the draft, in order |
| Splitter.ChunksShape | twinewriter/nodes.py:125-153 | every chunk is trimmed, holds a word and fits the budget unless it is a single over-long word |
| Splitter.ChunksEmptyIffNoWords | twinewriter/nodes.py:151-153 | there is no chunk exactly when the draft is empty or only whitespace |
| Splitter.FoldSnoc | twinewriter/nodes.py:130 | processing one more unit is one more step of the loop |
| Splitter.AddPiece | twinewriter/nodes.py:135-140 | one iteration of the inner loops on the chunk list and the current text is one `Step` of the specification |
| Splitter.PackWords | twinewriter/nodes.py:133-140 | the word loop for an over-long sentence processes its words as one `Step` each, continuing the fold over the units seen so far |
| Splitter.PackChunks | twinewriter/nodes.py:125-153 | the loops compute `Chunks`, which keep the draft's words in order and are trimmed, non-empty and within the budget |
| Splitter.NumberChunks | twinewriter/nodes.py:156-164 | one tweet per chunk, tweet `i` of `N` has index `i`, content `"{i}/{N} "` plus its chunk and a correct count; the list satisfies `ThreadValid` |
| Splitter.SplitDraft | twinewriter/nodes.py:117-164 | the splitter's result is `SplitThread` for the draft and `max_tweet_length`, and satisfies `ThreadValid` |
| Splitter.SplitThreadKeepsWords | twinewriter/nodes.py:125-164 | stripping the prefixes off the tweets gives back exactly the words of the draft, in order |
| Splitter.SplitThreadEmptyIffBlank | twinewriter/nodes.py:125-164 | a blank draft gives no tweet and any other draft at least one |
| Splitter.SplitThreadChunkBound | twinewriter/nodes.py:121-164 | after its prefix, each tweet has at most `max_tweet_length - 6` characters unless it is a single longer word |
| Splitter.SplitThreadFits | twinewriter/nodes.py:120-164 | with at most 99 tweets and no word longer than `max_tweet_length - 6`, every tweet's count is within `max_tweet_length` |
| Nodes.ReadDecision | twinewriter/nodes.py:191-245 | after stripping and lower-casing the choice, `a`, `e`, `r` and `q` mean approve, edit, revise and quit; an edit whose number does not parse is its own case; any other choice is unrecognised (each direction of each case) |
| Nodes.EditTweet | twinewriter/nodes.py:205-220 | only tweet `n` changes; it gets index `n`, the stripped text behind the prefix for its position when the list has several tweets, and a correct count |
| Nodes.EditKeepsThreadValid | twinewriter/nodes.py:209-220 | an edit keeps `ThreadValid` |
| Nodes.FinalizeRecord | twinewriter/nodes.py:304-319 | the document has status `approved`, the timestamp, topic and tone, one entry per tweet, `total_tweets` equal to the tweet count, and `is_thread` exactly when there are several tweets |
| Nodes.FinalThreadRoundTrip | twinewriter/nodes.py:309-316 | reading the exported entries back gives the tweet list |
| Nodes.FinalThreadValid | twinewriter/nodes.py:309-316 | the exported thread of a valid list is numbered 1..N with correct counts and prefixes |
| Nodes.FinalizeDeterministic | twinewriter/nodes.py:306 | two finalizations of the same record differ only in the timestamp |
| Nodes.AgentState.constructor | twinewriter/workflow.py:73-85 | the initial record: the arguments, a budget of 280, empty draft, tweets, feedback and error, both flags false, no final document |
| Nodes.AgentState.InputNode | twinewriter/nodes.py:12-30 | a missing budget becomes 280 and an empty tone `professional`; both flags and the error are cleared; nothing else changes |
| Nodes.AgentState.ContentGeneration | twinewriter/nodes.py:33-81 | a failure to create the client or of the call sets the matching error message and keeps the draft; a reply becomes the stripped draft; nothing else changes |
| Nodes.AgentState.LengthChecker | twinewriter/nodes.py:84-106 | a draft within the budget becomes one tweet with index 1 and its length; otherwise the tweets are emptied; `ThreadValid` holds afterwards |
| Nodes.AgentState.ThreadSplitter | twinewriter/nodes.py:109-170 | a non-empty tweet list is kept; otherwise the tweets become `SplitThread` of the draft; `ThreadValid` is preserved |
| Nodes.AgentState.HumanReview | twinewriter/nodes.py:173-247 | approve sets approved and clears the revision request; an edit with a number in range applies `EditTweet`; an edit out of range or an unrecognised choice clears both flags; an unparsable number changes nothing; revise stores the stripped feedback and requests a revision; quit sets `User cancelled`; `ThreadValid` is preserved |
| Nodes.AgentState.Revision | twinewriter/nodes.py:250-297 | a failure sets the matching error and changes nothing else; a reply becomes the stripped draft, empties the tweets and clears the revision request |
| Nodes.AgentState.Finalizer | twinewriter/nodes.py:300-319 | the final document is `FinalizeRecord` of the record with the given timestamp; nothing else changes |
| Workflow.ShouldSplitThread | twinewriter/workflow.py:19-23 | go to the splitter exactly when there is no error and no tweet, otherwise to review |
| Workflow.ShouldRevise | twinewriter/workflow.py:26-34 | an error ends the run; otherwise a revision request goes to revise, then an approval to finalize, otherwise back to review (each as an if-and-only-if) |
| Workflow.Next | twinewriter/workflow.py:52-61 | the successor of each node: input goes to generate, generate and revise to the length check, the splitter to review, finalize to the end; the length check goes to the splitter exactly without an error and without tweets, otherwise to review; review goes to the end on an error, otherwise to revise, finalize or back to review as `should_revise` says; end is absorbing; every edge except those out of review moves closer to the end |
| Workflow.SelectResult | twinewriter/workflow.py:96-104 | the run returns the final document exactly when the last state is approved, has no error and holds a document |
| Workflow.SomeCallFailedMeans | twinewriter/nodes.py:38-79 | `SomeCallFailed(replies, n)` holds exactly when one of the first `n` model calls did not reply |
| Workflow.QuitWithinMeans | twinewriter/nodes.py:238-239 | `QuitWithin(decisions, n)` holds exactly when `Quit` is among the first `n` decisions |
| Workflow.GoesOnMeans | twinewriter/workflow.py:26-34 | `GoesOn(replies, decisions, d)` holds exactly when every review before decision `d` lets the run go on: no approval, no quit, and no failed call before that review |
| Workflow.UsageFromFacts | twinewriter/workflow.py:26-34 | from any review, the run stops on an approval, a quit or a failed call, or runs out of replies or decisions, and every review before the last let it go on |
| Workflow.UsageFromCount | twinewriter/workflow.py:57-60 | from any review, the replies used are one per revision request plus the first generation, less one when the run stopped before the last request's revision |
| Workflow.UsageFacts | twinewriter/workflow.py:26-34 | for a whole run: a finished run stopped on an approval, a quit or a failed call, after reviews that all let it go on; an unfinished run ran out of replies or decisions, and not on an approval or a quit; the replies used are the first generation plus one per revision request |
| Workflow.UsageFromApproval | twinewriter/workflow.py:32-33 | from any review up to it, the first approval ends the run there when no quit and no failed call comes before it |
| Workflow.UsageOfApproval | twinewriter/workflow.py:100-101 | a run whose first approval comes before any quit and any failed call finishes at that approval, without a quit, after one reply per revision request on top of the first |
| Workflow.InputStep | twinewriter/workflow.py:53 | running the input node keeps the run invariant and moves to generation |
| Workflow.GenerateStep | twinewriter/workflow.py:54 | running generation on the next reply keeps the run invariant (an error exactly after a failed call or a quit) and moves to the length check |
| Workflow.CheckStep | twinewriter/workflow.py:55 | running the length check keeps the run invariant and moves forward |
| Workflow.SplitStep | twinewriter/workflow.py:56 | running the splitter keeps the run invariant and moves to review |
| Workflow.ReviewStep | twinewriter/workflow.py:57 | running a review on the next decision keeps the run invariant: approved only right after an approval, error exactly after a failed call or a quit |
| Workflow.ReviseStep | twinewriter/workflow.py:60 | running the revision on the next reply keeps the run invariant and moves to the length check |
| Workflow.FinalizeStep | twinewriter/workflow.py:61 | running the finalizer stores the document of an approved, error-free record and moves to the end |
| Workflow.Step | twinewriter/workflow.py:52-61 | one pass of the loop runs the current node, keeps the run invariant (which ties the replies and decisions used to `RunUsage`) and either consumes a decision or moves closer to the end |
| Workflow.RunTwinewriter | twinewriter/workflow.py:69-104 | whether the run finishes and the `rUsed` replies and `dUsed` decisions it consumes are exactly `RunUsage(replies, decisions)`; a run whose first approval comes before any quit and any failed call returns a document, at that approval; a returned document means that the run reached the end and the last decision was an approval; the document is `approved`, has the given timestamp, topic and defaulted tone, and a numbered, prefixed, correctly counted thread; once any call failed or the reviewer quit, nothing is returned; a finished run returns a document exactly when neither happened; a run that stops early has used up the replies or the decisions; a failed first generation uses one reply and at most one decision and ends at that review; quitting at the first review ends the run with nothing; a successful first reply followed by an approval finishes after one reply and one decision and returns exactly the document of the first draft: one tweet when it fits 280 characters, otherwise its split thread |

## Left out

- The language model is not called. Each call's outcome (`get_llm()` raising, `invoke` raising, or a reply) is passed to `RunTwinewriter` as a list. The prompts, which are only ever sent to the model, are not built, including the revision prompt's join of the current tweets.
- Terminal input and output are left out. The reviewer's answers are passed in as `Decision` values. `ReadDecision` describes how a choice, a parsed tweet number and an answer map to a decision. Python's `int()` parsing is reduced to a number that is present or missing.
- `datetime.now().isoformat()` is replaced by a timestamp parameter.
- LangGraph itself is not modelled: its streaming, the memory checkpointer, and the default limit of 25 steps after which a run raises. `RunTwinewriter` instead stops when the scripted replies or decisions run out and reports this with `finished`.
- app.py, llm.py and cli.py are not part of this model.
- `final_json` starts as `{}` in the source; the model represents that as `None`.
- A missing or falsy `max_tweet_length` is modelled as 0, which `input_node` replaces with 280.
- `Lower` lower-cases ASCII letters only, not all of Unicode. The lowered choice is only compared with `a`, `e`, `r` and `q`, and in Unicode only `A`, `E`, `R` and `Q` lower-case to these. So every comparison the review node makes comes out as with `str.lower()`.
- SplitThreadFits: holds only for threads of at most 99 tweets. The source reserves 6 characters for the prefix, and PrefixReserve shows that from 100 tweets on the prefix of tweet 10 and every later one needs 7 or more. A tweet of such a thread can then exceed `max_tweet_length` by one or two characters.
- SplitThreadFits: also requires every word to fit `max_tweet_length - 6`. The source puts a longer word into a chunk of its own, over the budget; SplitThreadChunkBound states what holds in that case.
- RunTwinewriter: does not state the full sequence of states a run passes through. Its contract fixes whether the run finishes, the replies and decisions it uses (through `RunUsage`) and when it returns a document. The returned thread is given exactly only for a draft approved at the first review; after edits and revisions, only its shape is stated.
