/**
 How a read child's delegated task is classified (internal/supervisor/result.go:31-104).

 RunReadTask subscribes first, reads the source boundary next, and only then submits its prompt; it
 then folds over the subscription's replay and live events. What it decides is a function of the
 session's own publications after the boundary, whatever the replay happened to retain and
 whatever descendants' events are interleaved.
*/
module ReadTask {
  import opened Events
  import Broker

  /** A decoded Pi record; the role and stop reason are those of its message, if it has one. */
  datatype Record = Undecodable | Record(kind: string, hasMessage: bool, role: string, stopReason: string)

  datatype Verdict =
    | Undecided            // the stream, the transport or the context ended first
    | DecodeFailed
    | ExtensionError
    | WasAborted           // child_aborted
    | BadStop(reason: string)
    | NoFinalMessage
    | Settled              // the final assistant text is fetched next

  /** Events the loop does not skip. */
  predicate Counts(e: Event, session: string, boundary: nat) {
    e.session == session && e.kind == "pi" && e.sourceSeq > boundary
  }

  function Relevant(events: seq<Event>, session: string, boundary: nat): seq<Event> {
    if events == [] then []
    else if Counts(events[0], session, boundary) then [events[0]] + Relevant(events[1..], session, boundary)
    else Relevant(events[1..], session, boundary)
  }

  function SettledWith(lastStopReason: string): Verdict {
    if lastStopReason == "stop" then Settled
    else if lastStopReason == "aborted" then WasAborted
    else if lastStopReason == "error" || lastStopReason == "length" then BadStop(lastStopReason)
    else NoFinalMessage
  }

  /** The verdict on a generation: the first decisive record, judged by the last assistant stop reason before it. */
  function Classify(own: seq<Event>, lastStopReason: string, decode: string -> Record): Verdict {
    if own == [] then Undecided
    else
      match decode(own[0].payload)
      case Undecodable => DecodeFailed
      case Record(kind, hasMessage, role, stopReason) =>
        if kind == "extension_error" then ExtensionError
        else if kind == "agent_settled" then SettledWith(lastStopReason)
        else if kind == "message_end" && hasMessage && role == "assistant"
        then Classify(own[1..], stopReason, decode)
        else Classify(own[1..], lastStopReason, decode)
  }

  // ---------------------------------------------------------------- what a verdict means

  predicate IsKind(e: Event, kind: string, decode: string -> Record) {
    decode(e.payload).Record? && decode(e.payload).kind == kind
  }

  /** An event that ends the loop. */
  predicate Decisive(e: Event, decode: string -> Record) {
    decode(e.payload).Undecodable? || IsKind(e, "extension_error", decode) || IsKind(e, "agent_settled", decode)
  }

  predicate FirstDecisive(own: seq<Event>, k: nat, decode: string -> Record) {
    k < |own| && Decisive(own[k], decode) && forall i | 0 <= i < k :: !Decisive(own[i], decode)
  }

  /** The end of an assistant message. */
  predicate AssistantEnd(e: Event, decode: string -> Record) {
    IsKind(e, "message_end", decode) && decode(e.payload).hasMessage && decode(e.payload).role == "assistant"
  }

  /** `reason` is the stop reason of the last assistant message that ended before `k`. */
  ghost predicate LastReason(own: seq<Event>, k: nat, reason: string, decode: string -> Record)
    requires k <= |own|
  {
    exists j :: 0 <= j < k && AssistantEnd(own[j], decode) && decode(own[j].payload).stopReason == reason
                && forall i | j < i < k :: !AssistantEnd(own[i], decode)
  }

  ghost predicate NoMessageBefore(own: seq<Event>, k: nat, decode: string -> Record)
    requires k <= |own|
  {
    forall i | 0 <= i < k :: !AssistantEnd(own[i], decode)
  }

  /** The generation settles at `k`, the last assistant message having stopped for `reason`. */
  ghost predicate SettlesFor(own: seq<Event>, k: nat, reason: string, decode: string -> Record) {
    FirstDecisive(own, k, decode) && IsKind(own[k], "agent_settled", decode) && LastReason(own, k, reason, decode)
  }

  ghost predicate SettlesSilently(own: seq<Event>, k: nat, decode: string -> Record) {
    FirstDecisive(own, k, decode) && IsKind(own[k], "agent_settled", decode) && NoMessageBefore(own, k, decode)
  }

  ghost predicate EndsWith(own: seq<Event>, decode: string -> Record, reason: string) {
    exists k: nat :: SettlesFor(own, k, reason, decode)
  }

  /** It settles without a message, or after one that stopped for a reason the source does not know. */
  ghost predicate EndsWithoutResult(own: seq<Event>, decode: string -> Record) {
    || (exists k: nat :: SettlesSilently(own, k, decode))
    || (exists reason :: reason !in {"stop", "aborted", "error", "length"} && EndsWith(own, decode, reason))
  }

  ghost predicate FailsToDecode(own: seq<Event>, decode: string -> Record) {
    exists k: nat :: FirstDecisive(own, k, decode) && decode(own[k].payload).Undecodable?
  }

  ghost predicate ReportsError(own: seq<Event>, decode: string -> Record) {
    exists k: nat :: FirstDecisive(own, k, decode) && IsKind(own[k], "extension_error", decode)
  }

  /** What every verdict says of the generation, each exactly. */
  ghost predicate Says(own: seq<Event>, decode: string -> Record, verdict: Verdict) {
    && (verdict == Undecided <==> forall i | 0 <= i < |own| :: !Decisive(own[i], decode))
    && (verdict == DecodeFailed <==> FailsToDecode(own, decode))
    && (verdict == ExtensionError <==> ReportsError(own, decode))
    && (verdict == Settled <==> EndsWith(own, decode, "stop"))
    && (verdict == WasAborted <==> EndsWith(own, decode, "aborted"))
    && (verdict == BadStop("error") <==> EndsWith(own, decode, "error"))
    && (verdict == BadStop("length") <==> EndsWith(own, decode, "length"))
    && (verdict.BadStop? ==> verdict.reason in {"error", "length"})
    && (verdict == NoFinalMessage <==> EndsWithoutResult(own, decode))
  }

  /** Where the fold stops, and with which last stop reason; at the end of `own` it has not stopped. */
  ghost predicate StopsAt(own: seq<Event>, last: string, decode: string -> Record, k: nat, reason: string) {
    && k <= |own|
    && (forall i | 0 <= i < k :: !Decisive(own[i], decode))
    && (k < |own| ==> Decisive(own[k], decode))
    && (LastReason(own, k, reason, decode) || (NoMessageBefore(own, k, decode) && reason == last))
    && Classify(own, last, decode) ==
       (if k == |own| then Undecided
        else if decode(own[k].payload).Undecodable? then DecodeFailed
        else if IsKind(own[k], "extension_error", decode) then ExtensionError
        else SettledWith(reason))
  }

  lemma {:induction false} Stop(own: seq<Event>, last: string, decode: string -> Record) returns (k: nat, reason: string)
    ensures StopsAt(own, last, decode, k, reason)
  {
    if own == [] || Decisive(own[0], decode) {
      k, reason := 0, last;
    } else {
      var next := if AssistantEnd(own[0], decode) then decode(own[0].payload).stopReason else last;
      var rest, found := Stop(own[1..], next, decode);
      k, reason := rest + 1, found;
      StopFurther(own, last, next, decode, rest, found);
    }
  }

  lemma StopFurther(own: seq<Event>, last: string, next: string, decode: string -> Record, rest: nat, reason: string)
    requires own != [] && !Decisive(own[0], decode)
    requires next == if AssistantEnd(own[0], decode) then decode(own[0].payload).stopReason else last
    requires StopsAt(own[1..], next, decode, rest, reason)
    ensures StopsAt(own, last, decode, rest + 1, reason)
  {
    assert Classify(own, last, decode) == Classify(own[1..], next, decode);
    hide Classify;
    if LastReason(own[1..], rest, reason, decode) {
      var j :| 0 <= j < rest && AssistantEnd(own[1..][j], decode) && decode(own[1..][j].payload).stopReason == reason
               && forall i | j < i < rest :: !AssistantEnd(own[1..][i], decode);
      assert AssistantEnd(own[j + 1], decode);
      forall i | j + 1 < i < rest + 1 ensures !AssistantEnd(own[i], decode) {
        assert own[i] == own[1..][i - 1];
      }
      assert LastReason(own, rest + 1, reason, decode);
    } else {
      forall i | 0 < i < rest + 1 ensures !AssistantEnd(own[i], decode) {
        assert own[i] == own[1..][i - 1];
      }
      if AssistantEnd(own[0], decode) {
        assert LastReason(own, rest + 1, reason, decode);
      }
    }
    forall i | 0 <= i < rest + 1 ensures !Decisive(own[i], decode) {
      assert i > 0 ==> own[i] == own[1..][i - 1];
    }
  }

  /** There is one place to stop, and one reason to have stopped for. */
  ghost predicate Unique(own: seq<Event>, k: nat, reason: string, decode: string -> Record)
    requires k <= |own|
  {
    && (forall j: nat | FirstDecisive(own, j, decode) :: j == k)
    && (forall r | LastReason(own, k, r, decode) :: r == reason)
    && (LastReason(own, k, reason, decode) <==> !NoMessageBefore(own, k, decode))
    && (k < |own| <==> FirstDecisive(own, k, decode))
  }

  lemma StopIsUnique(own: seq<Event>, decode: string -> Record, k: nat, reason: string)
    requires StopsAt(own, "", decode, k, reason)
    ensures Unique(own, k, reason, decode)
  {
    hide Classify;
    forall r | LastReason(own, k, r, decode) ensures r == reason {
      OneLastReason(own, k, r, reason, decode);
    }
  }

  lemma StopDecides(own: seq<Event>, decode: string -> Record, k: nat, reason: string)
    requires StopsAt(own, "", decode, k, reason)
    ensures Says(own, decode, Classify(own, "", decode))
  {
    StopIsUnique(own, decode, k, reason);
    var verdict := Classify(own, "", decode);
    assert k < |own| ==> decode(own[k].payload).Undecodable? || IsKind(own[k], "extension_error", decode) || IsKind(own[k], "agent_settled", decode);
    assert reason != "" ==> LastReason(own, k, reason, decode);
    assert verdict == (if k == |own| then Undecided
                       else if decode(own[k].payload).Undecodable? then DecodeFailed
                       else if IsKind(own[k], "extension_error", decode) then ExtensionError
                       else SettledWith(reason));
    assert (forall i | 0 <= i < |own| :: !Decisive(own[i], decode)) <==> k == |own|;
    hide Classify, FirstDecisive, LastReason, NoMessageBefore, Decisive, StopsAt;
    SaysFrom(own, decode, k, reason, verdict);
  }

  lemma EndsWithExactly(own: seq<Event>, decode: string -> Record, k: nat, reason: string, r: string)
    requires k <= |own| && Unique(own, k, reason, decode)
    ensures EndsWith(own, decode, r) <==>
            k < |own| && IsKind(own[k], "agent_settled", decode) && r == reason && !NoMessageBefore(own, k, decode)
  {
    if k < |own| && IsKind(own[k], "agent_settled", decode) && r == reason && !NoMessageBefore(own, k, decode) {
      assert SettlesFor(own, k, r, decode);
    }
    hide FirstDecisive, LastReason, NoMessageBefore;
  }

  lemma OthersExactly(own: seq<Event>, decode: string -> Record, k: nat, reason: string)
    requires k <= |own| && Unique(own, k, reason, decode)
    ensures FailsToDecode(own, decode) <==> k < |own| && decode(own[k].payload).Undecodable?
    ensures ReportsError(own, decode) <==> k < |own| && IsKind(own[k], "extension_error", decode)
    ensures EndsWithoutResult(own, decode) <==>
            k < |own| && IsKind(own[k], "agent_settled", decode)
            && (NoMessageBefore(own, k, decode) || reason !in {"stop", "aborted", "error", "length"})
  {
    EndsWithExactly(own, decode, k, reason, reason);
    forall r | EndsWith(own, decode, r) ensures r == reason {
      EndsWithExactly(own, decode, k, reason, r);
    }
    if k < |own| && IsKind(own[k], "agent_settled", decode) && NoMessageBefore(own, k, decode) {
      assert SettlesSilently(own, k, decode);
    }
    hide FirstDecisive, LastReason, NoMessageBefore, EndsWith;
  }

  lemma SaysFrom(own: seq<Event>, decode: string -> Record, k: nat, reason: string, verdict: Verdict)
    requires k <= |own| && Unique(own, k, reason, decode)
    requires (forall i | 0 <= i < |own| :: !Decisive(own[i], decode)) <==> k == |own|
    requires k < |own| ==>
               decode(own[k].payload).Undecodable? || IsKind(own[k], "extension_error", decode) || IsKind(own[k], "agent_settled", decode)
    requires reason != "" ==> LastReason(own, k, reason, decode)
    requires verdict == (if k == |own| then Undecided
                         else if decode(own[k].payload).Undecodable? then DecodeFailed
                         else if IsKind(own[k], "extension_error", decode) then ExtensionError
                         else SettledWith(reason))
    ensures Says(own, decode, verdict)
  {
    OthersExactly(own, decode, k, reason);
    EndsWithExactly(own, decode, k, reason, "stop");
    EndsWithExactly(own, decode, k, reason, "aborted");
    EndsWithExactly(own, decode, k, reason, "error");
    EndsWithExactly(own, decode, k, reason, "length");
    hide EndsWith, EndsWithoutResult, FailsToDecode, ReportsError, LastReason, NoMessageBefore, FirstDecisive;
  }

  lemma OneLastReason(own: seq<Event>, k: nat, one: string, other: string, decode: string -> Record)
    requires k <= |own| && LastReason(own, k, one, decode)
    requires LastReason(own, k, other, decode) || NoMessageBefore(own, k, decode)
    ensures one == other && LastReason(own, k, other, decode)
  {
  }

  /** Every verdict, exactly: where the first decisive event stands, what it is, and how the last assistant message ended. */
  lemma VerdictExactly(own: seq<Event>, decode: string -> Record)
    ensures Says(own, decode, Classify(own, "", decode))
  {
    var k, reason := Stop(own, "", decode);
    StopDecides(own, decode, k, reason);
  }

  /** Positions, moved one further, behind a first element that is in or out. */
  function Shifted(first: bool, rest: seq<nat>): seq<nat> {
    var shifted := seq(|rest|, i requires 0 <= i < |rest| => rest[i] + 1);
    if first then [0] + shifted else shifted
  }

  lemma ShiftedHolds(first: bool, rest: seq<nat>, n: nat)
    ensures n in Shifted(first, rest) <==> if n == 0 then first else n - 1 in rest
  {
    var at := Shifted(first, rest);
    var offset := if first then 1 else 0;
    if n > 0 && n - 1 in rest {
      var i :| 0 <= i < |rest| && rest[i] == n - 1;
      assert at[i + offset] == n;
    }
    if n > 0 && n in at {
      var i :| 0 <= i < |at| && at[i] == n;
      assert rest[i - offset] == n - 1;
    }
    if n == 0 && first {
      assert at[0] == 0;
    }
  }

  ghost predicate Selects(events: seq<Event>, chosen: seq<Event>, at: seq<nat>) {
    && |at| == |chosen|
    && (forall i | 0 <= i < |at| :: at[i] < |events| && chosen[i] == events[at[i]])
    && (forall i, j | 0 <= i < j < |at| :: at[i] < at[j])
  }

  lemma ShiftedSelects(events: seq<Event>, chosen: seq<Event>, rest: seq<nat>, first: bool)
    requires events != [] && Selects(events[1..], chosen, rest)
    ensures Selects(events, if first then [events[0]] + chosen else chosen, Shifted(first, rest))
  {
    var offset := if first then 1 else 0;
    var at := Shifted(first, rest);
    forall i | offset <= i < |at| ensures at[i] == rest[i - offset] + 1 && events[at[i]] == chosen[i - offset] {
      assert events[1..][rest[i - offset]] == events[at[i]];
    }
  }

  /** The events the loop does not skip are the session's own "pi" events past the boundary, in order, and no others. */
  lemma {:induction false} RelevantExactly(events: seq<Event>, session: string, boundary: nat) returns (at: seq<nat>)
    ensures Selects(events, Relevant(events, session, boundary), at)
    ensures forall n: nat | n < |events| ::
              n in at <==> events[n].session == session && events[n].kind == "pi" && events[n].sourceSeq > boundary
  {
    if events == [] {
      at := [];
    } else {
      var rest := RelevantExactly(events[1..], session, boundary);
      var first := Counts(events[0], session, boundary);
      assert Relevant(events, session, boundary) ==
             if first then [events[0]] + Relevant(events[1..], session, boundary) else Relevant(events[1..], session, boundary);
      at := Shifted(first, rest);
      ShiftedSelects(events, Relevant(events[1..], session, boundary), rest, first);
      hide Relevant, Shifted, Selects;
      forall n: nat | n < |events|
        ensures n in at <==> events[n].session == session && events[n].kind == "pi" && events[n].sourceSeq > boundary
      {
        ShiftedHolds(first, rest, n);
        assert n > 0 ==> events[n] == events[1..][n - 1];
      }
    }
  }

  // ---------------------------------------------------------------- the loop

  /** The loop, on a replay and the live events received before the stream ended or was cut. */
  method RunReadTask(replay: seq<Event>, live: seq<Event>, session: string, boundary: nat, decode: string -> Record)
    returns (verdict: Verdict)
    ensures verdict == Classify(Relevant(replay + live, session, boundary), "", decode)
    ensures Says(Relevant(replay + live, session, boundary), decode, verdict)
  {
    hide Says;
    VerdictExactly(Relevant(replay + live, session, boundary), decode);
    var pending, received := replay, 0;
    var lastStopReason := "";
    assert pending + live[0..] == replay + live;
    while |pending| > 0 || received < |live|
      invariant received <= |live|
      invariant Classify(Relevant(pending + live[received..], session, boundary), lastStopReason, decode)
             == Classify(Relevant(replay + live, session, boundary), "", decode)
      decreases |pending| + |live| - received
    {
      var event;
      ghost var rest := pending + live[received..];
      if |pending| > 0 {
        event, pending := pending[0], pending[1..];
      } else {
        event := live[received];
        received := received + 1;
      }
      assert rest[0] == event && rest[1..] == pending + live[received..];
      if event.session != session || event.kind != "pi" || event.sourceSeq <= boundary {
        continue;
      }
      match decode(event.payload) {
        case Undecodable => return DecodeFailed;
        case Record(kind, hasMessage, role, stopReason) =>
          if kind == "extension_error" {
            return ExtensionError;
          }
          if kind == "message_end" {
            if hasMessage && role == "assistant" {
              lastStopReason := stopReason;
            }
          } else if kind == "agent_settled" {
            return SettledWith(lastStopReason);
          }
      }
    }
    verdict := Undecided;
  }

  lemma {:induction false} RelevantConcat(a: seq<Event>, b: seq<Event>, session: string, boundary: nat)
    ensures Relevant(a + b, session, boundary) == Relevant(a, session, boundary) + Relevant(b, session, boundary)
  {
    if a == [] {
      assert a + b == b;
    } else {
      assert (a + b)[1..] == a[1..] + b;
      RelevantConcat(a[1..], b, session, boundary);
    }
  }

  lemma {:induction false} RelevantOfProject(events: seq<Event>, session: string, boundary: nat)
    ensures Relevant(events, session, boundary) == Relevant(Project(events, session), session, boundary)
  {
    if events != [] {
      var n := |events| - 1;
      assert events == events[..n] + [events[n]];
      RelevantOfProject(events[..n], session, boundary);
      RelevantConcat(events[..n], [events[n]], session, boundary);
      RelevantConcat(Project(events[..n], session), [events[n]], session, boundary);
    }
  }

  lemma {:induction false} NothingRelevant(events: seq<Event>, session: string, boundary: nat)
    requires forall i | 0 <= i < |events| :: events[i].sourceSeq <= boundary
    ensures Relevant(events, session, boundary) == []
  {
    if events != [] {
      NothingRelevant(events[1..], session, boundary);
    }
  }

  /** A session's own publications after the boundary, as far as `n` of the broker's history. */
  function Generation(history: seq<Event>, n: nat, session: string, boundary: nat): seq<Event>
    requires n <= |history|
  {
    var own := Project(history[..n], session);
    if boundary <= |own| then own[boundary..] else []
  }

  lemma ProjectPrefix(history: seq<Event>, n: nat, session: string)
    requires n <= |history|
    ensures Project(history[..n], session) <= Project(history, session)
  {
    assert history == history[..n] + history[n..];
    ProjectConcat(history[..n], history[n..], session);
  }

  /** Of an interval of a numbered list, only what lies after the boundary counts. */
  lemma IntervalHoldsGeneration(own: seq<Event>, lo: nat, hi: nat, session: string, boundary: nat)
    requires Broker.Contiguous(own) && lo <= boundary && lo <= hi <= |own|
    ensures Relevant(own[lo..hi], session, boundary)
         == Relevant(if boundary <= hi then own[boundary..hi] else [], session, boundary)
  {
    var mid := if boundary <= hi then boundary else hi;
    assert own[lo..hi] == own[lo..mid] + own[mid..hi];
    RelevantConcat(own[lo..mid], own[mid..hi], session, boundary);
    NothingRelevant(own[lo..mid], session, boundary);
  }

  /**
   With the subscription's cut at or before the boundary's, what the loop keeps of a stream that has
   reached `n` is what it would keep of the session's own publications after the boundary alone.
   The history is one the session numbers itself (module Broker, SourceInv).
  */
  lemma StreamHoldsGeneration(history: seq<Event>, first: nat, at: nat, n: nat, session: string, boundary: nat)
    requires first <= at <= |history| && first <= n <= |history|
    requires Broker.Contiguous(Project(history, session)) && boundary == |Project(history[..at], session)|
    ensures Relevant(history[first..n], session, boundary)
         == Relevant(Generation(history, n, session, boundary), session, boundary)
  {
    hide Project, Relevant, Broker.Contiguous;
    var lo, hi := ProjectInterval(history, first, n, session);
    var _, _ := ProjectInterval(history, first, at, session);
    RelevantOfProject(history[first..n], session, boundary);
    IntervalHoldsGeneration(Project(history, session), lo, hi, session, boundary);
    ProjectPrefix(history, n, session);
    var upTo := Project(history[..n], session);
    assert upTo == Project(history, session)[..hi];
    if boundary <= hi {
      assert upTo[boundary..] == Project(history, session)[boundary..hi];
    }
  }

  /**
   The classification is a pure function of the session's own publications after the boundary: for
   any broker history, however the stream is split into replay and live events.
  */
  lemma VerdictIsOfGeneration(
      history: seq<Event>, first: nat, cut: nat, at: nat, n: nat, session: string, boundary: nat,
      decode: string -> Record, replay: seq<Event>, live: seq<Event>)
    requires first <= cut <= at <= |history| && cut <= n <= |history|
    requires Broker.Contiguous(Project(history, session)) && boundary == |Project(history[..at], session)|
    requires replay == history[first..cut] && live == history[cut..n]
    ensures Classify(Relevant(replay + live, session, boundary), "", decode)
         == Classify(Relevant(Generation(history, n, session, boundary), session, boundary), "", decode)
  {
    assert replay + live == history[first..n];
    StreamHoldsGeneration(history, first, at, n, session, boundary);
  }

  /**
   Joined to the broker: in every run, whatever a subscriber was handed, the verdict on it is the
   verdict on the session's own publications after a boundary read once the subscription existed.
  */
  lemma VerdictOfRun(
      config: Broker.Config, actions: seq<Broker.Action>, id: nat, at: nat, session: string, decode: string -> Record)
    requires config.Acceptable() && id in Broker.Run(Broker.Initial(config), actions).boxes
    requires var s := Broker.Run(Broker.Initial(config), actions);
             session !in s.foreign && s.boxes[id].cut <= at <= |s.history|
    ensures var s := Broker.Run(Broker.Initial(config), actions);
            var sub := s.boxes[id];
            var boundary := |Project(s.history[..at], session)|;
            && 0 <= sub.first <= sub.first + |sub.Stream()| <= |s.history|
            && Classify(Relevant(sub.Stream(), session, boundary), "", decode)
            == Classify(Relevant(Generation(s.history, sub.first + |sub.Stream()|, session, boundary), session, boundary), "", decode)
  {
    hide Project, Relevant, Classify, Generation, LongestFit, Broker.Contiguous, Broker.Run, Broker.Initial, Broker.RingOf;
    var s := Broker.Run(Broker.Initial(config), actions);
    var sub := s.boxes[id];
    Broker.StreamIsInterval(config, actions, id);
    OwnIsContiguous(config, actions, session);
    StreamHoldsGeneration(s.history, sub.first, at, sub.first + |sub.Stream()|, session, |Project(s.history[..at], session)|);
  }

  lemma OwnIsContiguous(config: Broker.Config, actions: seq<Broker.Action>, session: string)
    requires config.Acceptable() && session !in Broker.Run(Broker.Initial(config), actions).foreign
    ensures Broker.Contiguous(Project(Broker.Run(Broker.Initial(config), actions).history, session))
  {
    Broker.InitialInv(config);
    Broker.EveryRunKeepsInv(Broker.Initial(config), actions);
  }

  /** A decision, once reached, is not changed by later events. */
  lemma {:induction false} VerdictIsFinal(own: seq<Event>, more: seq<Event>, last: string, decode: string -> Record)
    requires Classify(own, last, decode) != Undecided
    ensures Classify(own + more, last, decode) == Classify(own, last, decode)
  {
    assert (own + more)[1..] == own[1..] + more;
    match decode(own[0].payload)
    case Undecodable =>
    case Record(kind, hasMessage, role, stopReason) =>
      if kind != "extension_error" && kind != "agent_settled" {
        VerdictIsFinal(own[1..], more,
                       if kind == "message_end" && hasMessage && role == "assistant" then stopReason else last, decode);
      }
  }
}
