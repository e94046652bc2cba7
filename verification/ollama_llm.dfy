/**
 * The language-model client: the message list sent to the chat endpoint,
 * the clean-up applied to a reply, the bounded history of exchanges, and
 * the retry loop of `generate_response`. The HTTP exchange itself is the
 * abstract `outcome` of each attempt, and the model warm-up the abstract
 * `warmUp` result.
 */
module OllamaLlm {
  import opened Common
  import opened Text

  /** The most messages the history keeps (ten exchanges). */
  const MaxHistory := 20

  const EmptyReply := "I'm sorry, I couldn't generate a response."
  const TroubleReply := "Sorry, I'm having trouble processing your request right now."
  const SlowReply := "Sorry, I'm taking too long to respond. Please try again."
  const NoConnectionReply := "Sorry, I can't connect to my language model. Please check if Ollama is running."
  const ErrorReply := "Sorry, I encountered an error while processing your request."
  const GaveUpReply := "Sorry, I couldn't process your request after multiple attempts."

  /**
   * What one request to the chat endpoint produced: an HTTP status with the
   * reply's `message.content` (empty when absent), a timeout, a refused
   * connection, or any other exception (an unreadable body among them).
   */
  datatype HttpOutcome =
    | Status(code: int, content: string)
    | Timeout
    | ConnectionError
    | OtherError

  /**
   * `_build_messages`: the system prompt, when given and not blank, then the
   * user's input unchanged. The stored history is never sent.
   */
  function BuildMessages(userInput: string, systemPrompt: Option<string>): (r: seq<ChatMessage>)
    ensures |r| >= 1 && r[|r| - 1] == ChatMessage("user", userInput)
    ensures |r| == 2 <==> systemPrompt.Some? && !IsBlank(systemPrompt.value)
    ensures |r| == 2 ==> r[0] == ChatMessage("system", systemPrompt.value)
    ensures |r| <= 2
  {
    StripEmptyIffBlank(systemPrompt.GetOr(""));
    var user := ChatMessage("user", userInput);
    if systemPrompt.Some? && Strip(systemPrompt.value) != [] then [ChatMessage("system", systemPrompt.value), user]
    else [user]
  }

  /** The reply ends with three dots or with the one-character ellipsis. */
  predicate EndsWithEllipsis(s: string) {
    EndsWith(s, "...") || EndsWith(s, "\U{2026}")
  }

  /**
   * `_clean_response`: whitespace normalised to single spaces; a trailing
   * "..." or "…" then has the last three characters cut and the rest
   * re-stripped.
   */
  function CleanResponse(response: string): (r: string)
    ensures Normalized(r)
    ensures !EndsWithEllipsis(Join(Words(response))) ==> r == Join(Words(response))
    ensures EndsWithEllipsis(Join(Words(response))) ==>
      r == Strip(SliceTo(Join(Words(response)), -3))
  {
    var joined := Join(Words(Strip(response)));
    WordsStrip(response);
    JoinWordsSpec(response);
    if EndsWithEllipsis(joined) then
      var cut := SliceTo(joined, -3);
      NormalizedPrefix(joined, |cut|);
      Strip(cut)
    else joined
  }

  /** A reply that was only dots comes out empty. */
  lemma DotsOnlyReplyIsEmpty()
    ensures CleanResponse("...") == ""
  {
    var w := "...";
    assert IsWord(w) by {
      forall k | 0 <= k < |w|
        ensures !IsSpace(w[k])
      {
        assert w[k] == '.';
      }
    }
    WordsOfWord(w);
    assert EndsWith(w, "...");
    assert SliceTo(w, -3) == "";
  }

  /**
   * The single-character ellipsis also costs three characters, so the two
   * letters before it are lost along with it.
   */
  lemma EllipsisCharCutsThree()
    ensures CleanResponse("Hello\U{2026}") == "Hel"
  {
    var w := "Hello\U{2026}";
    assert IsWord(w);
    WordsOfWord(w);
    assert EndsWith(w, "\U{2026}");
    assert SliceTo(w, -3) == "Hel";
    NormalizedStrip("Hel");
  }

  /** The result of one call of `generate_response`. */
  datatype Turn = Turn(reply: string, answered: bool, attempts: nat)

  /** How one attempt ends: with a reply (answered or not), or by going on to the next attempt. */
  datatype Verdict = Finish(reply: string, answered: bool) | Retry

  /**
   * The body of the retry loop for one request outcome, where `retry` says
   * that attempts remain and `warmedUp` is what restarting the model gave.
   */
  function AttemptVerdict(o: HttpOutcome, retry: bool, warmedUp: bool): (v: Verdict)
    ensures v.Retry? ==> retry
    ensures o.ConnectionError? ==> v == Finish(NoConnectionReply, false)
  {
    if o.Status? && o.code == 200 then
      if Strip(o.content) != [] then Finish(CleanResponse(Strip(o.content)), true)
      else if retry then Retry
      else Finish(EmptyReply, false)
    else if o.Status? && o.code == 500 && retry then
      if warmedUp then Retry else Finish(GaveUpReply, false)
    else if o.ConnectionError? then Finish(NoConnectionReply, false)
    else if retry then Retry
    else if o.Status? then Finish(TroubleReply, false)
    else if o.Timeout? then Finish(SlowReply, false)
    else Finish(ErrorReply, false)
  }

  /** An attempt is answered exactly when it got a non-blank status-200 reply, which is returned cleaned. */
  lemma AnsweredAttempt(o: HttpOutcome, retry: bool, warmedUp: bool)
    ensures var v := AttemptVerdict(o, retry, warmedUp);
      (v.Finish? && v.answered <==> AnswerOf(o, if v.Finish? then v.reply else ""))
  {
    if o.Status? && o.code == 200 {
      StripEmptyIffBlank(o.content);
    }
  }

  /**
   * The retry loop from attempt number `attempt` on: what `generate_response`
   * returns, whether a real answer arrived (the only case that updates the
   * history), and how many requests were sent in all.
   */
  function RunFrom(prompt: string, systemPrompt: Option<string>, maxRetries: int,
                   outcome: (nat, seq<ChatMessage>) -> HttpOutcome, warmUp: nat -> bool, attempt: nat): Turn
    decreases maxRetries + 1 - attempt
  {
    if attempt > maxRetries then Turn(GaveUpReply, false, attempt)
    else
      match AttemptVerdict(outcome(attempt, BuildMessages(prompt, systemPrompt)), attempt < maxRetries, warmUp(attempt))
      case Retry => RunFrom(prompt, systemPrompt, maxRetries, outcome, warmUp, attempt + 1)
      case Finish(reply, answered) => Turn(reply, answered, attempt + 1)
  }

  /** No run from attempt `attempt` goes past attempt `maxRetries`. */
  lemma {:induction false} AttemptsBoundedFrom(prompt: string, systemPrompt: Option<string>, maxRetries: int,
                                             outcome: (nat, seq<ChatMessage>) -> HttpOutcome, warmUp: nat -> bool,
                                             attempt: nat)
    ensures var t := RunFrom(prompt, systemPrompt, maxRetries, outcome, warmUp, attempt);
      && (attempt <= maxRetries ==> attempt + 1 <= t.attempts <= maxRetries + 1)
      && (attempt > maxRetries ==> t.attempts == attempt)
    decreases maxRetries + 1 - attempt
  {
    if attempt <= maxRetries {
      var retried := RunFromStep(prompt, systemPrompt, maxRetries, outcome, warmUp, attempt);
      if retried {
        AttemptsBoundedFrom(prompt, systemPrompt, maxRetries, outcome, warmUp, attempt + 1);
      }
    }
  }

  /** One attempt either ends the run there or hands it on, unchanged, to the next attempt, which is allowed. */
  lemma RunFromStep(prompt: string, systemPrompt: Option<string>, maxRetries: int,
                    outcome: (nat, seq<ChatMessage>) -> HttpOutcome, warmUp: nat -> bool, attempt: nat)
    returns (retried: bool)
    requires attempt <= maxRetries
    ensures var t := RunFrom(prompt, systemPrompt, maxRetries, outcome, warmUp, attempt);
      if retried then attempt < maxRetries && t == RunFrom(prompt, systemPrompt, maxRetries, outcome, warmUp, attempt + 1)
      else t.attempts == attempt + 1
  {
    var v := AttemptVerdict(outcome(attempt, BuildMessages(prompt, systemPrompt)), attempt < maxRetries, warmUp(attempt));
    retried := v.Retry?;
  }

  /**
   * `generate_response` sends at most `max_retries + 1` requests (none at
   * all for a negative `max_retries`), and a refused connection ends the
   * loop at once.
   */
  lemma AttemptsBounded(prompt: string, systemPrompt: Option<string>, maxRetries: int,
                        outcome: (nat, seq<ChatMessage>) -> HttpOutcome, warmUp: nat -> bool)
    ensures var t := RunFrom(prompt, systemPrompt, maxRetries, outcome, warmUp, 0);
      && (maxRetries >= 0 ==> 1 <= t.attempts <= maxRetries + 1)
      && (maxRetries < 0 ==> t == Turn(GaveUpReply, false, 0))
    ensures maxRetries >= 0 && outcome(0, BuildMessages(prompt, systemPrompt)).ConnectionError? ==>
      RunFrom(prompt, systemPrompt, maxRetries, outcome, warmUp, 0) == Turn(NoConnectionReply, false, 1)
  {
    AttemptsBoundedFrom(prompt, systemPrompt, maxRetries, outcome, warmUp, 0);
  }

  /** The request got status 200 with content that is not blank, and `reply` is that content cleaned. */
  predicate AnswerOf(o: HttpOutcome, reply: string) {
    o.Status? && o.code == 200 && !IsBlank(o.content) && reply == CleanResponse(Strip(o.content))
  }

  /**
   * A run is answered only when some attempt got status 200 with content
   * that is not blank, and the reply is then that content cleaned.
   */
  lemma {:induction false} AnsweredMeansContent(prompt: string, systemPrompt: Option<string>, maxRetries: int,
                                              outcome: (nat, seq<ChatMessage>) -> HttpOutcome, warmUp: nat -> bool,
                                              attempt: nat)
    ensures var t := RunFrom(prompt, systemPrompt, maxRetries, outcome, warmUp, attempt);
      t.answered ==> exists k: nat | attempt <= k <= maxRetries ::
        t.attempts == k + 1 && AnswerOf(outcome(k, BuildMessages(prompt, systemPrompt)), t.reply)
    decreases maxRetries + 1 - attempt
  {
    if attempt <= maxRetries {
      var o := outcome(attempt, BuildMessages(prompt, systemPrompt));
      var v := AttemptVerdict(o, attempt < maxRetries, warmUp(attempt));
      if v.Retry? {
        AnsweredMeansContent(prompt, systemPrompt, maxRetries, outcome, warmUp, attempt + 1);
      } else {
        FinishedHere(prompt, systemPrompt, maxRetries, outcome, warmUp, attempt);
        var t := RunFrom(prompt, systemPrompt, maxRetries, outcome, warmUp, attempt);
        if t.answered {
          assert t.attempts == attempt + 1 && AnswerOf(o, t.reply);
        }
      }
    }
  }

  /** An attempt that ends the loop determines the run. */
  lemma FinishedHere(prompt: string, systemPrompt: Option<string>, maxRetries: int,
                     outcome: (nat, seq<ChatMessage>) -> HttpOutcome, warmUp: nat -> bool, attempt: nat)
    requires attempt <= maxRetries
    requires AttemptVerdict(outcome(attempt, BuildMessages(prompt, systemPrompt)), attempt < maxRetries, warmUp(attempt)).Finish?
    ensures var t := RunFrom(prompt, systemPrompt, maxRetries, outcome, warmUp, attempt);
      t.answered ==> t.attempts == attempt + 1 && AnswerOf(outcome(attempt, BuildMessages(prompt, systemPrompt)), t.reply)
  {
    AnsweredAttempt(outcome(attempt, BuildMessages(prompt, systemPrompt)), attempt < maxRetries, warmUp(attempt));
  }

  /** `_add_to_history`: append and keep the newest twenty. */
  function WithMessage(history: seq<ChatMessage>, role: string, content: string): (r: seq<ChatMessage>)
    ensures |r| <= MaxHistory || r == history + [ChatMessage(role, content)]
    ensures |history| < MaxHistory ==> r == history + [ChatMessage(role, content)]
    ensures |r| >= 1 && r[|r| - 1] == ChatMessage(role, content)
    ensures |history| >= MaxHistory ==> |r| == MaxHistory
    ensures r[..|r| - 1] == history[|history| + 1 - |r|..]
  {
    AppendThenTrim(history, ChatMessage(role, content), MaxHistory);
    KeepNewest(history + [ChatMessage(role, content)], MaxHistory)
  }

  class OllamaClient {
    var history: seq<ChatMessage>

    /** The history never holds more than twenty messages. */
    predicate Valid()
      reads this
    {
      |history| <= MaxHistory
    }

    constructor ()
      ensures Valid() && history == []
    {
      history := [];
    }

    method AddToHistory(role: string, content: string)
      requires Valid()
      modifies this`history
      ensures Valid()
      ensures history == WithMessage(old(history), role, content)
    {
      history := history + [ChatMessage(role, content)];
      if |history| > MaxHistory {
        history := SliceFrom(history, -MaxHistory);
      }
    }

    method ClearHistory()
      modifies this`history
      ensures Valid() && history == []
    {
      history := [];
    }

    /** `get_history` returns a copy: a value that later updates do not touch. */
    method GetHistory() returns (copy: seq<ChatMessage>)
      ensures copy == history
    {
      copy := history;
    }

    /**
     * `generate_response`: up to `maxRetries + 1` requests. Only a
     * non-blank status-200 reply is answered; it is cleaned and recorded in
     * the history as a user message followed by an assistant message.
     */
    method GenerateResponse(prompt: string, systemPrompt: Option<string>, maxRetries: int,
                            outcome: (nat, seq<ChatMessage>) -> HttpOutcome, warmUp: nat -> bool)
      returns (reply: string)
      requires Valid()
      modifies this`history
      ensures Valid()
      ensures reply == RunFrom(prompt, systemPrompt, maxRetries, outcome, warmUp, 0).reply
      ensures RunFrom(prompt, systemPrompt, maxRetries, outcome, warmUp, 0).answered ==>
        history == WithMessage(WithMessage(old(history), "user", prompt), "assistant", reply)
      ensures !RunFrom(prompt, systemPrompt, maxRetries, outcome, warmUp, 0).answered ==>
        history == old(history)
    {
      var attempt: nat := 0;
      while attempt <= maxRetries
        invariant RunFrom(prompt, systemPrompt, maxRetries, outcome, warmUp, 0)
               == RunFrom(prompt, systemPrompt, maxRetries, outcome, warmUp, attempt)
        invariant history == old(history)
        decreases maxRetries + 1 - attempt
      {
        var messages := BuildMessages(prompt, systemPrompt);
        var response := outcome(attempt, messages);
        if response.Status? && response.code == 200 {
          var aiResponse := Strip(response.content);
          if aiResponse != [] {
            var cleanResponse := CleanResponse(aiResponse);
            AddToHistory("user", prompt);
            AddToHistory("assistant", cleanResponse);
            return cleanResponse;
          } else {
            if attempt < maxRetries {
              attempt := attempt + 1;
              continue;
            }
            return EmptyReply;
          }
        } else if response.Status? && response.code == 500 && attempt < maxRetries {
          if warmUp(attempt) {
            attempt := attempt + 1;
            continue;
          } else {
            break;
          }
        } else if response.ConnectionError? {
          return NoConnectionReply;
        } else {
          if attempt < maxRetries {
            attempt := attempt + 1;
            continue;
          }
          if response.Status? {
            return TroubleReply;
          } else if response.Timeout? {
            return SlowReply;
          }
          return ErrorReply;
        }
      }
      return GaveUpReply;
    }
  }
}
