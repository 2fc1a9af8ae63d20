/** The life of one chat request: cache hit, live stream or buffered completion, with transport fallback
    before an answer and quality fallback after one.

    What the providers answer, what the validators say, how a live stream ends, how much of the request's
    time has passed and whether the transactions commit are inputs; what the request row, the attempts, the
    impact records, the response cache's rows and the client hold afterwards is the result. */
module RequestLifecycle {
  import opened Prelude

  type Id = nat

  datatype Tier = Specialized | Small | Standard | Frontier

  datatype Endpoint = Endpoint(id: Id, tier: Tier, enabled: bool)

  // Usable: it can be read to its end. Empty: a whole answer without a list of choices, or with an empty
  // one. Malformed: the gateway raises where it reads it, as for an answer whose first choice has no message
  // or a first chunk whose time of creation is null.
  datatype Form = Usable | Empty | Malformed

  datatype Answer = Answers(text: string, form: Form) | Errs(code: string)

  // at: the time the request has taken when the call is about to be made.
  datatype Call = Call(at: int, answer: Answer)

  datatype Verdict = Verdict(passed: bool, answer: Option<string>)

  // Abandoned: the client left between two chunks, and the generator was closed at its yield.
  datatype Ending = Finished | Cancelled | Broken | Abandoned

  datatype CacheKind = Exact | Semantic

  datatype Hit = Hit(kind: CacheKind, source: Id, text: string)

  // commits: the handler's own transaction does, with all it accounts for, caches and publishes before.
  // settles: the last transaction of a live stream does, with all it reads and caches before.
  datatype Input = Input(
    pool: seq<Endpoint>,
    eligible: set<Id>,
    fallback: Id,
    chosen: Option<Id>,
    hit: Option<Hit>,
    stream: bool,
    confident: bool,
    supportTask: bool,
    qualityFallback: bool,
    deadline: int,
    first: Call,
    second: Call,
    firstVerdict: Verdict,
    secondVerdict: Verdict,
    commits: bool,
    slotFree: bool,
    ending: Ending,
    settles: bool,
    cacheable: bool)

  // Endpoints are rows with ids of their own, selection chooses from them, and time does not run backwards.
  predicate Proper(i: Input) {
    && (forall j, k :: 0 <= j < k < |i.pool| ==> i.pool[j].id != i.pool[k].id)
    && (i.chosen.Some? ==> Find(i.pool, i.chosen.value).Some?)
    && i.first.at <= i.second.at
  }

  function Find(pool: seq<Endpoint>, id: Id): (found: Option<Endpoint>)
    ensures found.Some? ==> found.value in pool && found.value.id == id
    ensures found.None? ==> forall k :: 0 <= k < |pool| ==> pool[k].id != id
  {
    if pool == [] then None else if pool[0].id == id then Some(pool[0]) else Find(pool[1..], id)
  }

  function TierOf(i: Input, id: Id): Tier
    requires Find(i.pool, id).Some?
  {
    Find(i.pool, id).value.tier
  }

  const RETRYABLE := {"rate_limit_error", "upstream_timeout", "upstream_transport_error", "upstream_error"}

  // Unrecorded: the handler raised before its commit, and the database holds nothing of the request.
  datatype Status = Routing | Completed | Failed | ClientCancelled | PartialStream | Unrecorded

  datatype Purpose = Selected | TransportFallback | QualityFallback

  datatype AttemptStatus = Done | Refused | Streaming | Interrupted

  datatype Attempt = Attempt(number: nat, endpoint: Id, purpose: Purpose, status: AttemptStatus)

  datatype Entry = Entry(source: Id, text: string)

  // Whether the required fallback may be called after the given endpoint was tried.
  predicate MayFallBack(i: Input, tried: Id) {
    i.fallback != tried && i.fallback in i.eligible && Find(i.pool, i.fallback).Some?
  }

  // The first call failed in a way that is worth a try elsewhere.
  predicate OwesRetry(i: Input)
    requires i.chosen.Some?
  {
    i.first.answer.Errs? && i.first.answer.code in RETRYABLE && MayFallBack(i, i.chosen.value)
  }

  // The first answer was usable but not good enough, and a frontier fallback may stand in for it.
  predicate OwesQuality(i: Input)
    requires i.chosen.Some?
  {
    && i.first.answer.Answers? && i.first.answer.form.Usable? && !i.firstVerdict.passed && i.qualityFallback
    && MayFallBack(i, i.chosen.value)
    && Find(i.pool, i.fallback).value.tier == Frontier && Find(i.pool, i.fallback).value.enabled
  }

  // Which providers a live and a buffered request call, in order.
  function LiveCalls(i: Input): seq<Id>
    requires i.chosen.Some?
  {
    if OwesRetry(i) then [i.chosen.value, i.fallback] else [i.chosen.value]
  }

  function BufferedCalls(i: Input): seq<Id>
    requires i.chosen.Some?
  {
    if i.first.at >= i.deadline then []
    else if (OwesRetry(i) || OwesQuality(i)) && i.second.at < i.deadline then [i.chosen.value, i.fallback]
    else [i.chosen.value]
  }

  // Whether a buffered request ends with a usable answer that passed its validation, in time.
  predicate Succeeds(i: Input)
    requires i.chosen.Some?
  {
    && i.first.at < i.deadline
    && if OwesRetry(i) || OwesQuality(i) then
         && i.second.at < i.deadline && i.second.answer.Answers? && i.second.answer.form.Usable?
         && (if OwesQuality(i) then i.secondVerdict.passed else i.firstVerdict.passed)
       else
         i.first.answer.Answers? && i.first.answer.form.Usable? && i.firstVerdict.passed
  }

  // Whether the last answer of a buffered request raises where it is read.
  predicate Raises(i: Input)
    requires i.chosen.Some?
  {
    && i.first.at < i.deadline
    && if OwesRetry(i) || OwesQuality(i) then
         i.second.at < i.deadline && i.second.answer.Answers? && i.second.answer.form.Malformed?
       else
         i.first.answer.Answers? && i.first.answer.form.Malformed?
  }

  // The buffered request goes over to the fallback because its first call failed, or was out of time.
  predicate FailsOver(i: Input)
    requires i.chosen.Some?
  {
    MayFallBack(i, i.chosen.value) && (i.first.at >= i.deadline || OwesRetry(i))
  }

  // The fallback is asked for a better answer, and gives a usable one.
  predicate TriesQuality(i: Input)
    requires i.chosen.Some?
  {
    i.first.at < i.deadline && OwesQuality(i)
  }

  predicate Replaces(i: Input)
    requires i.chosen.Some?
  {
    TriesQuality(i) && i.second.at < i.deadline && i.second.answer.Answers? && i.second.answer.form.Usable?
  }

  // Every call that is made or runs out of time is recorded, but an unusable quality fallback is not.
  function AttemptCount(i: Input): nat
    requires i.chosen.Some?
  {
    if FailsOver(i) || (TriesQuality(i) && (i.second.at >= i.deadline || i.second.answer.Errs?)) || Replaces(i) then 2
    else 1
  }

  // A stream goes out unvalidated only from a confident route that owes no validation afterwards.
  predicate GoesLive(i: Input) {
    && i.stream && i.confident && i.chosen.Some?
    && Find(i.pool, i.chosen.value).Some? && TierOf(i, i.chosen.value) != Specialized
    && !(i.qualityFallback && i.supportTask)
  }

  // What the last endpoint a live request asks answers with: an error or the first chunk.
  function Opening(i: Input): Answer
    requires i.chosen.Some?
  {
    if OwesRetry(i) then i.second.answer else i.first.answer
  }

  // A live stream that has begun comes to the given end, and the end is recorded.
  predicate StreamEnds(i: Input, ending: Ending)
    requires i.chosen.Some?
  {
    && Opening(i).Answers? && !Opening(i).form.Malformed?
    && i.slotFree && i.settles && i.ending == ending && ending != Abandoned
  }

  // A live request is left as it was when its first chunk came: no stream slot was free for the response,
  // the chunk could not be read, the client left between two chunks, or the last transaction raised.
  predicate StaysOpen(i: Input)
    requires i.chosen.Some?
  {
    && Opening(i).Answers?
    && (!i.slotFree || Opening(i).form.Malformed? || i.ending == Abandoned || !i.settles)
  }

  // The required fallback may stand in for another endpoint: it is one of the model's and not excluded.
  ghost predicate StandsIn(i: Input) {
    i.chosen != Some(i.fallback) && i.fallback in i.eligible && exists e :: e in i.pool && e.id == i.fallback
  }

  ghost predicate Retryable(answer: Answer) {
    answer.Errs?
    && (answer.code == "rate_limit_error" || answer.code == "upstream_timeout"
        || answer.code == "upstream_transport_error" || answer.code == "upstream_error")
  }

  // An answer may go out unvalidated: the stream is wanted, the route confident and from a general endpoint,
  // and no support answer is to be replaced if it falls short.
  ghost predicate NeedsNoValidation(i: Input) {
    && i.stream && i.confident && !(i.qualityFallback && i.supportTask)
    && exists e :: e in i.pool && i.chosen == Some(e.id) && e.tier != Specialized
  }

  // The exact condition under which a request asks the fallback.
  lemma FallbackIsAskedExactlyWhen(i: Input)
    requires Proper(i) && i.chosen.Some?
    ensures GoesLive(i) <==> NeedsNoValidation(i)
    ensures |LiveCalls(i)| == 2 <==> StandsIn(i) && Retryable(i.first.answer)
    ensures |BufferedCalls(i)| == 2 <==>
              && StandsIn(i) && i.first.at < i.deadline && i.second.at < i.deadline
              && (|| Retryable(i.first.answer)
                  || (i.first.answer.Answers? && i.first.answer.form.Usable? && !i.firstVerdict.passed
                      && i.qualityFallback
                      && exists e :: e in i.pool && e.id == i.fallback && e.tier == Frontier && e.enabled))
    ensures |LiveCalls(i)| == 2 ==> LiveCalls(i) == [i.chosen.value, i.fallback]
    ensures |BufferedCalls(i)| == 2 ==> BufferedCalls(i) == [i.chosen.value, i.fallback]
  {
    FoundIsTheRow(i, i.fallback);
    FoundIsTheRow(i, i.chosen.value);
    hide Find;
  }

  // What a buffered request comes to follows from its last call: it succeeds if that one gives a usable answer
  // that passes the validation owed to it, and raises if it gives one that cannot be read.
  lemma OutcomeFollowsTheCalls(i: Input)
    requires Proper(i) && i.chosen.Some?
    ensures var asked := |BufferedCalls(i)|;
            var last := if asked == 2 then i.second.answer else i.first.answer;
            && asked <= 2
            && (Succeeds(i) <==>
                  && asked > 0 && last.Answers? && last.form.Usable?
                  && (if asked == 2 && i.first.answer.Answers? then i.secondVerdict.passed else i.firstVerdict.passed))
            && (Raises(i) <==> asked > 0 && last.Answers? && last.form.Malformed?)
            && (Replaces(i) <==> asked == 2 && i.first.answer.Answers? && last.Answers? && last.form.Usable?)
            && (FailsOver(i) <==> StandsIn(i) && (i.first.at >= i.deadline || Retryable(i.first.answer)))
            && (asked == 2 ==>
                  AttemptCount(i) == if i.first.answer.Errs? || last.Errs? || last.form.Usable? then 2 else 1)
            && (asked < 2 ==>
                  AttemptCount(i) == 1 || (AttemptCount(i) == 2 && StandsIn(i) && i.second.at >= i.deadline))
  {
    FoundIsTheRow(i, i.fallback);
    hide Find;
  }

  // A live request comes to exactly one end, told by its last call's answer and what happens after it.
  lemma LiveEndsAreApart(i: Input)
    requires i.chosen.Some?
    ensures Opening(i) == if |LiveCalls(i)| == 2 then i.second.answer else i.first.answer
    ensures StreamEnds(i, Finished) || StreamEnds(i, Cancelled) || StreamEnds(i, Broken)
            <==> Opening(i).Answers? && !StaysOpen(i)
    ensures forall e, f :: StreamEnds(i, e) && StreamEnds(i, f) ==> e == f && e == i.ending
    ensures StaysOpen(i) && i.slotFree && i.settles && i.ending != Abandoned ==> Opening(i).form.Malformed?
    ensures Opening(i).Answers? && (!i.slotFree || !i.settles || i.ending == Abandoned) ==> StaysOpen(i)
  {
  }

  lemma FoundIsTheRow(i: Input, id: Id)
    requires Proper(i)
    ensures Find(i.pool, id).Some? <==> exists e :: e in i.pool && e.id == id
    ensures forall e :: e in i.pool && e.id == id ==> Find(i.pool, id) == Some(e)
  {
    hide Find;
  }

  // At most two provider calls; the second only to the eligible required fallback.
  predicate CallsBounded(i: Input, calls: seq<Id>) {
    match |calls|
    case 0 => true
    case 1 => i.chosen == Some(calls[0])
    case 2 => i.chosen == Some(calls[0]) && calls[1] == i.fallback && MayFallBack(i, calls[0])
    case _ => false
  }

  // Attempts are numbered from one: the first on the chosen endpoint, the second on the fallback.
  predicate AttemptsAreOrdered(i: Input, attempts: seq<Attempt>) {
    && |attempts| <= 2
    && (attempts != [] ==>
          attempts[0].number == 1 && i.chosen == Some(attempts[0].endpoint) && attempts[0].purpose == Selected)
    && (|attempts| == 2 ==>
          attempts[1].number == 2 && attempts[1].endpoint == i.fallback && attempts[1].purpose != Selected
          && attempts[0].status != Streaming && attempts[0].endpoint != i.fallback)
  }

  class GatewayRun {
    var status: Status
    var cacheStatus: Option<CacheKind>
    var selected: Option<Id>
    var fallbackUsed: bool
    var decision: Option<Id>
    var attempts: seq<Attempt>
    var impacts: seq<Id>
    var stored: seq<Entry>
    var calls: seq<Id>
    var reply: Option<string>

    constructor ()
      ensures Blank()
    {
      status, cacheStatus, selected, fallbackUsed, decision := Routing, None, None, false, None;
      attempts, impacts, stored, calls, reply := [], [], [], [], None;
    }

    predicate Blank()
      reads this
    {
      Open() && selected == None && !fallbackUsed && decision == None && attempts == [] && calls == []
    }

    // Nothing has been decided, accounted for, cached or sent yet.
    predicate Open()
      reads this
    {
      status == Routing && cacheStatus == None && impacts == [] && stored == [] && reply == None
    }

    // A completed, uncached request has one impact record, its last attempt ran on the endpoint it
    // reports, and it reports a fallback exactly when there was a second attempt. What it cached is what
    // it replied, under that endpoint.
    predicate CompletedWell()
      reads this
    {
      status == Completed && cacheStatus.None? ==>
        && attempts != [] && attempts[|attempts| - 1].status == Done
        && selected == Some(attempts[|attempts| - 1].endpoint)
        && impacts == [selected.value]
        && (fallbackUsed <==> |attempts| == 2)
        && reply.Some?
        && (stored == [] || stored == [Entry(selected.value, reply.value)])
    }

    // A request that did not complete leaves nothing to account for and nothing to reuse.
    predicate FailedClean()
      reads this
    {
      status != Completed ==> impacts == [] && stored == []
    }

    // A cache hit calls no provider.
    predicate HitIsFree()
      reads this
    {
      cacheStatus.Some? ==>
        status == Completed && calls == [] && attempts == [] && |impacts| == 1 && stored == [] && !fallbackUsed
    }

    // An attempt is still streaming exactly while its request is open.
    predicate StreamingWhileOpen()
      reads this
    {
      status == Routing <==> attempts != [] && attempts[|attempts| - 1].status == Streaming
    }

    // What was not committed leaves nothing, and an answer of which nothing is known is not sent.
    predicate UnrecordedIsGone()
      reads this
    {
      status == Unrecorded ==>
        attempts == [] && selected == None && decision == None && !fallbackUsed && cacheStatus == None && reply == None
    }

    predicate Sound(i: Input)
      reads this
    {
      && StreamingWhileOpen() && UnrecordedIsGone()
      && CallsBounded(i, calls) && AttemptsAreOrdered(i, attempts)
      && CompletedWell() && FailedClean() && HitIsFree()
    }

    // An answer from `current` waits to be judged: after a first call, or after a transport fallback.
    predicate Answered(i: Input, number: nat, current: Id)
      reads this
    {
      && Open() && i.chosen.Some? && decision == i.chosen && selected == Some(current)
      && (number == 1 || number == 2)
      && (fallbackUsed <==> number == 2)
      && (number == 1 ==> current == i.chosen.value && attempts == [] && calls == [current])
      && (number == 2 ==>
            && current == i.fallback && MayFallBack(i, i.chosen.value)
            && attempts == [Attempt(1, i.chosen.value, Selected, Refused)]
            && calls == [i.chosen.value, current])
    }

    method Invoke(i: Input, endpoint: Id, call: Call) returns (answer: Answer)
      modifies this`calls
      ensures i.deadline <= call.at ==> calls == old(calls) && answer == Errs("upstream_timeout")
      ensures i.deadline > call.at ==> calls == old(calls) + [endpoint] && answer == call.answer
    {
      if i.deadline - call.at <= 0 {
        return Errs("upstream_timeout");
      }
      calls := calls + [endpoint];
      answer := call.answer;
    }

    // The handler raises, and its transaction is rolled back. Providers stay asked.
    method RollBack(i: Input)
      requires CallsBounded(i, calls)
      modifies this
      ensures Sound(i) && status == Unrecorded && calls == old(calls)
    {
      status, cacheStatus, selected, fallbackUsed, decision := Unrecorded, None, None, false, None;
      attempts, impacts, stored, reply := [], [], [], None;
    }

    method CompleteCacheHit(i: Input, hit: Hit)
      requires Blank()
      modifies this
      ensures Sound(i) && calls == []
      ensures status == if i.commits then Completed else Unrecorded
      ensures i.commits ==>
                && cacheStatus == Some(hit.kind) && selected == Some(hit.source)
                && reply == if i.stream && !i.slotFree then None else Some(hit.text)
    {
      if !i.commits {
        RollBack(i);
        return;
      }
      status := Completed;
      cacheStatus := Some(hit.kind);
      selected := Some(hit.source);
      impacts := [hit.source];
      if !i.stream || i.slotFree {
        reply := Some(hit.text);
      }
    }

    // The accounting and caching every completed call ends with.
    method Complete(i: Input, current: Id, text: string)
      requires Open() && CallsBounded(i, calls) && AttemptsAreOrdered(i, attempts)
      requires attempts != [] && attempts[|attempts| - 1].status == Done
      requires attempts[|attempts| - 1].endpoint == current && selected == Some(current)
      requires fallbackUsed <==> |attempts| == 2
      modifies this`status, this`impacts, this`stored, this`reply
      ensures Sound(i) && status == Completed && reply == Some(text)
      ensures stored != [] <==> i.cacheable
    {
      status := Completed;
      impacts := impacts + [current];
      if i.cacheable {
        stored := stored + [Entry(current, text)];
      }
      reply := Some(text);
    }

    // Waiting for the first chunk, from the chosen endpoint and then from the fallback.
    method Preflight(i: Input) returns (ok: bool, number: nat, current: Id, content: string)
      requires Proper(i) && i.chosen.Some? && Blank()
      modifies this
      ensures ok ==> selected == Some(current) && decision == selected && Open() && i.chosen.Some?
      ensures ok ==> (fallbackUsed <==> number == 2)
      ensures ok ==> number == 1 || number == 2
      ensures ok && number == 1 ==> current == i.chosen.value && attempts == [] && calls == [current]
      ensures ok && number == 2 ==>
                && current == i.fallback && MayFallBack(i, i.chosen.value)
                && attempts == [Attempt(1, i.chosen.value, Selected, Refused)]
                && calls == [i.chosen.value, current]
      ensures !ok ==> Sound(i) && status == Failed && cacheStatus.None? && decision == selected
      ensures !ok ==> |attempts| == |calls| && (fallbackUsed <==> |attempts| == 2)
      ensures calls == LiveCalls(i)
      ensures if ok then Opening(i).Answers? && content == Opening(i).text else Opening(i).Errs?
    {
      selected, decision := i.chosen, i.chosen;
      current, number, ok, content := i.chosen.value, 1, true, "";
      calls := [current];
      if i.first.answer.Answers? {
        content := i.first.answer.text;
        return;
      }
      attempts := [Attempt(1, current, Selected, Refused)];
      if i.first.answer.code !in RETRYABLE || !MayFallBack(i, current) {
        status, ok := Failed, false;
        return;
      }
      calls := [current, i.fallback];
      number, current := 2, i.fallback;
      selected, fallbackUsed, decision := Some(current), true, Some(current);
      if i.second.answer.Answers? {
        content := i.second.answer.text;
        return;
      }
      attempts := attempts + [Attempt(2, current, TransportFallback, Refused)];
      status, ok := Failed, false;
    }

    method RunLive(i: Input)
      requires Proper(i) && i.chosen.Some? && Blank()
      modifies this
      ensures Sound(i) && cacheStatus.None?
      ensures decision == selected
      ensures calls == LiveCalls(i)
      ensures status == Unrecorded <==> !i.commits
      ensures i.commits ==> |attempts| == |calls| && (fallbackUsed <==> |attempts| == 2)
      ensures i.commits ==>
                && (status == Failed <==> Opening(i).Errs?)
                && (status == Routing <==> StaysOpen(i))
                && (status == Completed <==> StreamEnds(i, Finished))
                && (status == ClientCancelled <==> StreamEnds(i, Cancelled))
                && (status == PartialStream <==> StreamEnds(i, Broken))
      ensures status == Completed ==> reply == Some(Opening(i).text) && (stored != [] <==> i.cacheable)
    {
      var ok, number, current, content := Preflight(i);
      if !i.commits {
        RollBack(i);
        return;
      }
      if !ok {
        return;
      }
      var purpose := if number == 1 then Selected else TransportFallback;
      var before := attempts;
      attempts := before + [Attempt(number, current, purpose, Streaming)];
      if !i.slotFree || Opening(i).form.Malformed? || !i.settles {
        return;
      }
      match i.ending {
        case Abandoned =>
        case Cancelled =>
          status := ClientCancelled;
          attempts := before + [Attempt(number, current, purpose, Interrupted)];
        case Broken =>
          status := PartialStream;
          attempts := before + [Attempt(number, current, purpose, Interrupted)];
        case Finished =>
          attempts := before + [Attempt(number, current, purpose, Done)];
          Complete(i, current, content);
      }
    }

    lemma FailedIsSound(i: Input)
      requires status == Failed && cacheStatus == None && impacts == [] && stored == []
      requires attempts != [] && attempts[|attempts| - 1].status != Streaming
      requires CallsBounded(i, calls) && AttemptsAreOrdered(i, attempts)
      ensures Sound(i)
    {
    }

    // A refusal by the chosen endpoint, or by it and then by the fallback.
    lemma RefusedIsSound(i: Input)
      requires status == Failed && cacheStatus == None && impacts == [] && stored == [] && i.chosen.Some?
      requires CallsBounded(i, calls)
      requires var first := Attempt(1, i.chosen.value, Selected, Refused);
               || attempts == [first]
               || (MayFallBack(i, i.chosen.value)
                   && attempts == [first, Attempt(2, i.fallback, TransportFallback, Refused)])
      ensures Sound(i)
    {
    }

    // The chosen endpoint is asked, and after a retryable error the required fallback.
    method AskInTurn(i: Input) returns (number: nat, current: Id, answer: Answer)
      requires Proper(i) && i.chosen.Some? && Blank()
      modifies this
      ensures answer.Answers? ==> Answered(i, number, current)
      ensures answer.Errs? ==>
                Sound(i) && status == Failed && cacheStatus.None?
                && decision == i.chosen && (fallbackUsed <==> FailsOver(i))
                && selected == (if FailsOver(i) then Some(i.fallback) else i.chosen)
                && |attempts| == (if FailsOver(i) then 2 else 1)
      ensures i.first.at >= i.deadline ==> calls == [] && answer.Errs?
      ensures i.first.at < i.deadline ==>
                if OwesRetry(i) then
                  && number == 2
                  && calls == [i.chosen.value] + (if i.second.at < i.deadline then [i.fallback] else [])
                  && (answer.Answers? <==> i.second.at < i.deadline && i.second.answer.Answers?)
                  && (answer.Answers? ==> answer == i.second.answer)
                else
                  && number == 1 && answer == i.first.answer && calls == [i.chosen.value]
    {
      hide Sound, AttemptsAreOrdered, MayFallBack;
      selected, decision := i.chosen, i.chosen;
      current, number := i.chosen.value, 1;
      answer := Invoke(i, current, i.first);
      if answer.Answers? {
        return;
      }
      attempts := [Attempt(1, current, Selected, Refused)];
      if answer.code !in RETRYABLE || !MayFallBack(i, current) {
        status := Failed;
        RefusedIsSound(i);
        return;
      }
      fallbackUsed, number, current := true, 2, i.fallback;
      selected := Some(current);
      answer := Invoke(i, current, i.second);
      if answer.Errs? {
        attempts := attempts + [Attempt(2, current, TransportFallback, Refused)];
        status := Failed;
        RefusedIsSound(i);
      }
    }

    // A first answer that failed validation is replaced by the fallback's, if it gives a usable one.
    method Replace(i: Input, tried: Id) returns (answer: Answer)
      requires Open() && Proper(i) && i.chosen == Some(tried) && decision == i.chosen && selected == i.chosen
      requires !fallbackUsed && attempts == [Attempt(1, tried, Selected, Done)] && calls == [tried]
      requires MayFallBack(i, tried)
      modifies this
      ensures answer.Answers? ==>
                && answer == i.second.answer && answer.form.Usable? && Open()
                && selected == Some(i.fallback) && decision == selected && fallbackUsed
                && attempts == [Attempt(1, tried, Selected, Done), Attempt(2, i.fallback, QualityFallback, Done)]
                && calls == [tried, i.fallback]
      ensures answer.Errs? ==>
                Sound(i) && cacheStatus.None? && (status == Failed || status == Unrecorded)
      ensures answer.Errs? && status == Failed ==>
                && !fallbackUsed && selected == i.chosen && decision == i.chosen
                && |attempts| == (if i.second.at >= i.deadline || i.second.answer.Errs? then 2 else 1)
      ensures calls == [tried] + (if i.second.at < i.deadline then [i.fallback] else [])
      ensures answer.Answers? <==>
                i.second.at < i.deadline && i.second.answer.Answers? && i.second.answer.form.Usable?
      ensures status == Unrecorded <==>
                i.second.at < i.deadline && i.second.answer.Answers? && i.second.answer.form.Malformed?
    {
      answer := Invoke(i, i.fallback, i.second);
      if answer.Errs? {
        attempts := attempts + [Attempt(2, i.fallback, QualityFallback, Refused)];
        status := Failed;
        return;
      }
      match answer.form {
        case Empty =>
          status := Failed;
          answer := Errs("upstream_invalid_response");
          return;
        case Malformed =>
          RollBack(i);
          answer := Errs("internal_error");
          return;
        case Usable =>
      }
      attempts := attempts + [Attempt(2, i.fallback, QualityFallback, Done)];
      selected, fallbackUsed, decision := Some(i.fallback), true, Some(i.fallback);
    }

    // What the validators hand back replaces a specialised endpoint's own wording.
    function Wording(i: Input, current: Id, answer: Answer, verdict: Verdict): string
      requires answer.Answers? && Find(i.pool, current).Some?
    {
      if verdict.answer.Some? && TierOf(i, current) == Specialized then verdict.answer.value else answer.text
    }

    // The replacement is judged in its turn.
    method ReplaceAndJudge(i: Input, tried: Id)
      requires Open() && Proper(i) && i.chosen == Some(tried) && decision == i.chosen && selected == i.chosen
      requires !fallbackUsed && attempts == [Attempt(1, tried, Selected, Done)] && calls == [tried]
      requires TriesQuality(i)
      modifies this
      ensures Sound(i) && cacheStatus.None? && (status == Completed || status == Failed || status == Unrecorded)
      ensures calls == BufferedCalls(i)
      ensures (status == Completed <==> Succeeds(i)) && (status == Unrecorded <==> Raises(i))
      ensures status == Completed ==> Judged(i) && (stored != [] <==> i.cacheable)
      ensures status != Unrecorded ==> Recorded(i)
    {
      var better := Replace(i, tried);
      hide Sound;
      if better.Answers? {
        if i.secondVerdict.passed {
          Complete(i, i.fallback, Wording(i, i.fallback, better, i.secondVerdict));
        } else {
          status := Failed;
          FailedIsSound(i);
        }
      }
    }

    // What every buffered request leaves on its row, its decision and its attempts, completed or not.
    predicate Recorded(i: Input)
      reads this
      requires i.chosen.Some?
    {
      && decision == (if Replaces(i) then Some(i.fallback) else i.chosen)
      && selected == (if FailsOver(i) || Replaces(i) then Some(i.fallback) else i.chosen)
      && (fallbackUsed <==> FailsOver(i) || Replaces(i))
      && |attempts| == AttemptCount(i)
    }

    // A usable answer is validated, replaced if it falls short and may be, and completed if it passes.
    method Judge(i: Input, number: nat, current: Id, answer: Answer)
      requires Proper(i) && Answered(i, number, current) && answer.Answers? && answer.form.Usable?
      requires i.first.at < i.deadline
      requires if OwesRetry(i) then number == 2 && i.second.at < i.deadline && answer == i.second.answer
               else number == 1 && answer == i.first.answer
      modifies this
      ensures Sound(i) && cacheStatus.None? && (status == Completed || status == Failed || status == Unrecorded)
      ensures calls == BufferedCalls(i)
      ensures (status == Completed <==> Succeeds(i)) && (status == Unrecorded <==> Raises(i))
      ensures status == Completed ==> Judged(i) && (stored != [] <==> i.cacheable)
      ensures status != Unrecorded ==> Recorded(i)
    {
      hide Sound;
      attempts := attempts + [Attempt(number, current, if number == 1 then Selected else TransportFallback, Done)];
      var verdict := i.firstVerdict;
      if !verdict.passed && i.qualityFallback && number < 2 {
        if MayFallBack(i, current) && TierOf(i, i.fallback) == Frontier && Find(i.pool, i.fallback).value.enabled {
          ReplaceAndJudge(i, current);
          return;
        }
      }
      if !verdict.passed {
        status := Failed;
        FailedIsSound(i);
        return;
      }
      Complete(i, current, Wording(i, current, answer, verdict));
    }

    method RunBuffered(i: Input)
      requires Proper(i) && i.chosen.Some? && Blank()
      modifies this
      ensures Sound(i) && cacheStatus.None? && (status == Completed || status == Failed || status == Unrecorded)
      ensures calls == BufferedCalls(i)
      // A request leaves nothing exactly when its last answer or its transaction raises.
      ensures status == Unrecorded <==> !i.commits || Raises(i)
      ensures status == Completed <==> i.commits && Succeeds(i)
      // Nothing completes, or is cached, without passing its last validation.
      ensures status == Completed ==> Judged(i) && (stored != [] <==> i.cacheable)
      ensures status != Unrecorded ==> Recorded(i)
      // The routing decision follows the request exactly when it does not go over to the fallback.
      ensures status != Unrecorded ==> (decision == selected <==> !FailsOver(i))
      // The request reports a fallback exactly when a second attempt is recorded, but for a quality fallback
      // that errs or is out of time.
      ensures status != Unrecorded ==>
                ((fallbackUsed <==> |attempts| == 2) <==>
                   !(TriesQuality(i) && (i.second.at >= i.deadline || i.second.answer.Errs?)))
    {
      var number, current, answer := AskInTurn(i);
      if answer.Answers? {
        match answer.form {
          case Empty =>
            var purpose := if number == 1 then Selected else TransportFallback;
            attempts := attempts + [Attempt(number, current, purpose, Refused)];
            status := Failed;
          case Malformed =>
            RollBack(i);
          case Usable =>
            Judge(i, number, current, answer);
        }
      }
      if !i.commits {
        RollBack(i);
      }
    }

    // The last attempt's answer was usable, passed its validation and is what the client was sent.
    predicate Judged(i: Input)
      reads this
    {
      && attempts != [] && Find(i.pool, attempts[|attempts| - 1].endpoint).Some?
      && var last := attempts[|attempts| - 1];
      && var verdict := if last.purpose == QualityFallback then i.secondVerdict else i.firstVerdict;
      && var answer := if last.number == 1 then i.first.answer else i.second.answer;
      && answer.Answers? && answer.form.Usable? && verdict.passed && reply.Some?
      && reply.value == match verdict.answer
                        case None => answer.text
                        case Some(wording) =>
                          if Find(i.pool, last.endpoint).value.tier == Specialized then wording else answer.text
    }

    // The whole request.
    method ChatCompletion(i: Input)
      requires Proper(i) && Blank()
      modifies this
      ensures Sound(i)
      ensures cacheStatus.Some? <==> i.hit.Some? && i.commits
      ensures i.hit.Some? && i.commits ==>
                && selected == Some(i.hit.value.source)
                && reply == if i.stream && !i.slotFree then None else Some(i.hit.value.text)
      ensures status == Routing <==> i.hit.None? && i.chosen.Some? && GoesLive(i) && i.commits && StaysOpen(i)
      ensures status == Unrecorded <==>
                !i.commits || (i.hit.None? && i.chosen.Some? && !GoesLive(i) && Raises(i))
      ensures i.hit.None? && i.chosen.None? ==> calls == [] && (i.commits ==> status == Failed)
      ensures i.hit.None? && i.chosen.Some? ==>
                calls == if GoesLive(i) then LiveCalls(i) else BufferedCalls(i)
      // A second provider is asked only if it is the required fallback and not excluded.
      ensures |calls| <= 2 && (|calls| == 2 ==>
                calls[1] == i.fallback && calls[1] in i.eligible && calls[1] != calls[0])
      // An answer goes out unvalidated only where it needs no validation.
      ensures status == Completed && i.hit.None? && !Judged(i) ==> NeedsNoValidation(i)
      ensures i.hit.None? && i.chosen.Some? ==>
                (status == Completed <==> i.commits && if GoesLive(i) then StreamEnds(i, Finished) else Succeeds(i))
      ensures status == Completed && i.hit.None? && !GoesLive(i) ==> Judged(i)
      ensures status == Completed && i.hit.None? ==> (stored != [] <==> i.cacheable)
      ensures i.hit.None? && i.chosen.Some? && status != Unrecorded ==>
                (decision == selected <==> GoesLive(i) || !FailsOver(i))
    {
      if i.chosen.Some? {
        FallbackIsAskedExactlyWhen(i);
      }
      if i.hit.Some? {
        CompleteCacheHit(i, i.hit.value);
      } else if i.chosen.None? {
        status := Failed;
        if !i.commits {
          RollBack(i);
        }
      } else if GoesLive(i) {
        RunLive(i);
      } else {
        RunBuffered(i);
      }
    }
  }
}
