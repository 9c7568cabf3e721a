/** What a call of a consumer amounts to, over whatever run of everybody else: what the barrier answered,
    what was handed out for it, and where the cursor ends. */
module Consuming {
  import opened Wiring
  import opened Protocol
  import opened Invariant
  import opened Preservation
  import opened Delivery
  import opened Progress
  import opened EveryRun
  import opened Fairness

  // --- the minimum is of values that were there -----------------------------------------------------

  /** Of its own steps, the consumer takes only readings of its dependencies. */
  predicate OnlyReads(steps: seq<Step>, c: nat) {
    forall i :: 0 <= i < |steps| && steps[i].ByConsumer? && steps[i].c == c ==> steps[i].consumerAction.ReadDependency?
  }

  /** Is `v` the `j`-th value that the barrier of `c` reads, at some time during the run? */
  predicate EverHeld(cfg: Config, s: State, steps: seq<Step>, c: nat, j: nat, v: int)
    requires IsRun(cfg, s, steps)
    decreases |steps|
  {
    || (IsDependency(cfg, s, c, j) && DependencyOf(cfg, s, c, j) == v)
    || (steps != [] && EverHeld(cfg, Apply(cfg, s, steps[0]), steps[1..], c, j, v))
  }

  predicate IsLeastOf(least: int, values: seq<int>) {
    values != [] ==> least in values && forall j :: 0 <= j < |values| ==> least <= values[j]
  }

  /** The values read so far are `seen`. */
  predicate HasRead(cfg: Config, s: State, c: nat, seen: seq<int>) {
    && c < |s.consumers| && s.consumers[c].pc.ReadingMin? && s.consumers[c].pc.read == |seen|
    && IsLeastOf(s.consumers[c].pc.least, seen)
  }

  lemma ReadsAnother(cfg: Config, s: State, c: nat, seen: seq<int>)
    requires HasRead(cfg, s, c, seen) && Enabled(cfg, s, ByConsumer(c, ReadDependency))
    ensures IsDependency(cfg, s, c, |seen|)
    ensures HasRead(cfg, Apply(cfg, s, ByConsumer(c, ReadDependency)), c, seen + [DependencyOf(cfg, s, c, |seen|)])
  {
    ReadsOneDependency(cfg, s, c);
    var least := Apply(cfg, s, ByConsumer(c, ReadDependency)).consumers[c].pc.least;
    var v := DependencyOf(cfg, s, c, |seen|);
    assert (seen + [v])[|seen|] == v;
    assert forall j :: 0 <= j < |seen| ==> (seen + [v])[j] == seen[j];
  }

  lemma {:induction false} ReadingCollects(cfg: Config, s: State, steps: seq<Step>, c: nat, seen: seq<int>)
    returns (values: seq<int>)
    requires IsRun(cfg, s, steps) && OnlyReads(steps, c) && HasRead(cfg, s, c, seen)
    ensures HasRead(cfg, After(cfg, s, steps), c, values) && |seen| <= |values| && values[..|seen|] == seen
    ensures forall j :: |seen| <= j < |values| ==> EverHeld(cfg, s, steps, c, j, values[j])
    decreases |steps|
  {
    if steps == [] {
      values := seen;
    } else {
      var t := Apply(cfg, s, steps[0]);
      var more := seen;
      if steps[0].ByConsumer? && steps[0].c == c {
        ReadsAnother(cfg, s, c, seen);
        more := seen + [DependencyOf(cfg, s, c, |seen|)];
      } else {
        RecordsChange(cfg, s, steps[0]);
      }
      values := ReadingCollects(cfg, t, steps[1..], c, more);
      assert values[..|seen|] == values[..|more|][..|seen|] == seen;
      forall j | |seen| <= j < |values| ensures EverHeld(cfg, s, steps, c, j, values[j]) {
        if j < |more| {
          assert values[j] == values[..|more|][j] == more[j];
        }
      }
    }
  }

  /** Over the reading of a minimum, whatever cursors and gates do meanwhile, also gates that move
      backwards: what the barrier answers is the least of values, each of which its cursor or gate has had
      between the beginning and the end of the reading. In particular it is at most such a value of each. */
  lemma MinimumIsOfValuesHeld(cfg: Config, s: State, steps: seq<Step>, c: nat) returns (values: seq<int>)
    requires IsRun(cfg, s, steps) && OnlyReads(steps, c)
    requires c < |s.consumers| && s.consumers[c].pc.ReadingMin? && s.consumers[c].pc.read == 0
    requires Enabled(cfg, After(cfg, s, steps), ByConsumer(c, CompleteMinimum))
    ensures |values| == Dependencies(cfg.graph.barriers[c])
    ensures forall j :: 0 <= j < |values| ==> EverHeld(cfg, s, steps, c, j, values[j])
    ensures IsLeastOf(After(cfg, s, steps).consumers[c].pc.least, values)
  {
    values := ReadingCollects(cfg, s, steps, c, []);
  }

  // --- answers --------------------------------------------------------------------------------------

  /** Is `answer` what the barrier of consumer `c` has to say right now: the frontier of what is published,
      or the minimum that has been read? */
  ghost predicate Answers(cfg: Config, s: State, c: nat, answer: int) {
    && c < |s.consumers| && c < |cfg.graph.barriers|
    && match cfg.graph.barriers[c]
       case Producers => (forall q :: 0 <= q <= answer ==> Published(s, q)) && !Published(s, answer + 1)
       case Stage(_, _) =>
         && s.consumers[c].pc.ReadingMin? && s.consumers[c].pc.read == Dependencies(cfg.graph.barriers[c])
         && s.consumers[c].pc.least == answer
  }

  ghost predicate EverAnswers(cfg: Config, s: State, steps: seq<Step>, c: nat, answer: int)
    requires IsRun(cfg, s, steps)
    decreases |steps|
  {
    Answers(cfg, s, c, answer) || (steps != [] && EverAnswers(cfg, Apply(cfg, s, steps[0]), steps[1..], c, answer))
  }

  predicate EverShutdown(cfg: Config, s: State, steps: seq<Step>, sequence: int)
    requires IsRun(cfg, s, steps)
    decreases |steps|
  {
    s.shutdown == sequence || (steps != [] && EverShutdown(cfg, Apply(cfg, s, steps[0]), steps[1..], sequence))
  }

  // --- what a call comes to -------------------------------------------------------------------------

  /** Begins consumer `c` this call? */
  predicate BeginsCall(step: Step, c: nat, call: Call) {
    step == ByConsumer(c, match call case WaitFor => BeginWait case PollTake(limit) => BeginPoll(limit))
  }

  /** How far a call moves the cursor when the barrier offers something: all the way, or to the limit. */
  function Target(call: Call, cursor: int, answer: int): int {
    match call
    case WaitFor => answer
    case PollTake(limit) => if answer <= cursor + limit then answer else cursor + limit
  }

  /** Since `x0`, the consumer has been given exactly the sequences after its cursor and before `next`, one
      after another. */
  predicate GivenUpTo(x0: Consumer, x: Consumer, next: int) {
    && |x.handled| == |x0.handled| + (next - (x0.cursor + 1)) && next > x0.cursor
    && x.handled[..|x0.handled|] == x0.handled
    && forall i :: |x0.handled| <= i < |x.handled| ==> x.handled[i].sequence == x0.cursor + 1 + (i - |x0.handled|)
  }

  /** The call that began at `x0` has heard this answer, and is over at `x`. A processor has been given
      everything up to its cursor; the user of a poller may have dropped the guard before its end. */
  ghost predicate Result(poller: bool, call: Call, x0: Consumer, x: Consumer, answer: int) {
    if answer > x0.cursor then
      && x.cursor == Target(call, x0.cursor, answer)
      && exists next :: next <= x.cursor + 1 && GivenUpTo(x0, x, next) && (poller || next == x.cursor + 1)
    else
      IsUntouched(x0, x)
  }

  predicate IsUntouched(x0: Consumer, x: Consumer) {
    x.cursor == x0.cursor && x.handled == x0.handled
  }

  /** What the call has come to know so far. */
  datatype Known = Nothing | Heard(answer: int) | ToldToStop

  /** Where the consumer is, in the middle of a call that began at `x0`. */
  ghost predicate InCall(poller: bool, call: Call, x0: Consumer, x: Consumer, known: Known) {
    match x.pc
    case CheckingFirst(limit) => call == PollTake(limit) && IsUntouched(x0, x) && known == Nothing
    case Scanning(asked, _) => asked == call && IsUntouched(x0, x) && known == Nothing
    case LoadingPublished(asked) => asked == call && IsUntouched(x0, x) && known == Nothing
    case ReadingMin(asked, _, _) => asked == call && IsUntouched(x0, x) && known == Nothing
    case CheckingShutdown => IsUntouched(x0, x) && known.Heard? && known.answer <= x0.cursor
    case Handling(next, available) =>
      && known.Heard? && known.answer > x0.cursor && available == Target(call, x0.cursor, known.answer)
      && x.cursor == x0.cursor && next <= available + 1 && GivenUpTo(x0, x, next)
    case Resting => if known.Heard? then Result(poller, call, x0, x, known.answer)
                    else known.ToldToStop? && IsUntouched(x0, x)
  }

  /** How what is known may change with a step from `s`. */
  ghost predicate Learns(cfg: Config, s: State, c: nat, cursor: int, known: Known, more: Known) {
    || more == known
    || (more.Heard? && Answers(cfg, s, c, more.answer))
    || (more.ToldToStop? && s.shutdown == cursor + 1)
  }

  /** The barrier's answer, once it has one. */
  lemma OfferIsInCall(poller: bool, call: Call, x0: Consumer, x: Consumer, answer: int)
    requires IsUntouched(x0, x)
    ensures InCall(poller, call, x0, x.(pc := Offer(x, call, answer)), Heard(answer))
  {
    var y := x.(pc := Offer(x, call, answer));
    if y.pc.Handling? {
      assert GivenUpTo(x0, y, x0.cursor + 1);
    }
  }

  lemma ScanLearns(cfg: Config, s: State, c: nat, poller: bool, call: Call, x0: Consumer) returns (more: Known)
    requires Inv(cfg, s) && Enabled(cfg, s, ByConsumer(c, ScanAvailability))
    requires InCall(poller, call, x0, s.consumers[c], Nothing)
    ensures Learns(cfg, s, c, x0.cursor, Nothing, more)
    ensures InCall(poller, call, x0, ConsumerAfter(cfg, s, c, ScanAvailability), more)
  {
    var x, y := s.consumers[c], ConsumerAfter(cfg, s, c, ScanAvailability);
    ScanLeadsTo(cfg, s, c);
    if ScanGoesFurther(cfg, s, x, y) {
      more := Nothing;
    } else {
      var available :| ScanAnswers(s, x, y, available);
      more := Heard(available);
      OfferIsInCall(poller, call, x0, x, available);
    }
  }

  /** A single producer's cursor is the frontier. */
  lemma CursorIsFrontier(cfg: Config, s: State)
    requires Inv(cfg, s) && !cfg.multi
    ensures (forall q :: 0 <= q <= s.published ==> Published(s, q)) && !Published(s, s.published + 1)
  {
    assert ProducerOk(cfg, s, s.producers[0]);
  }

  lemma AnswerLearns(cfg: Config, s: State, c: nat, action: ConsumerAction, poller: bool, call: Call, x0: Consumer)
    returns (more: Known)
    requires Inv(cfg, s) && Enabled(cfg, s, ByConsumer(c, action)) && (action.LoadPublished? || action.CompleteMinimum?)
    requires InCall(poller, call, x0, s.consumers[c], Nothing)
    ensures Learns(cfg, s, c, x0.cursor, Nothing, more)
    ensures InCall(poller, call, x0, ConsumerAfter(cfg, s, c, action), more)
  {
    var x := s.consumers[c];
    assert ConsumerOk(cfg, s, cfg.graph.barriers[c], x);
    var answer := if action.LoadPublished? then s.published else x.pc.least;
    if action.LoadPublished? {
      CursorIsFrontier(cfg, s);
    }
    more := Heard(answer);
    OfferIsInCall(poller, call, x0, x, answer);
  }

  lemma HandleGives(cfg: Config, s: State, c: nat, poller: bool, call: Call, x0: Consumer, known: Known)
    requires Enabled(cfg, s, ByConsumer(c, Handle)) && InCall(poller, call, x0, s.consumers[c], known)
    ensures InCall(poller, call, x0, ConsumerAfter(cfg, s, c, Handle), known)
  {
    var x, y := s.consumers[c], ConsumerAfter(cfg, s, c, Handle);
    assert y.handled[..|x0.handled|] == x.handled[..|x0.handled|];
    forall i | |x0.handled| <= i < |y.handled|
      ensures y.handled[i].sequence == x0.cursor + 1 + (i - |x0.handled|)
    {
      assert i < |x.handled| ==> y.handled[i] == x.handled[i];
    }
  }

  lemma StoreEnds(cfg: Config, s: State, c: nat, call: Call, x0: Consumer, known: Known)
    requires Enabled(cfg, s, ByConsumer(c, StoreCursor)) && InCall(cfg.poller[c], call, x0, s.consumers[c], known)
    ensures InCall(cfg.poller[c], call, x0, ConsumerAfter(cfg, s, c, StoreCursor), known)
  {
    var x, y := s.consumers[c], ConsumerAfter(cfg, s, c, StoreCursor);
    assert GivenUpTo(x0, y, x.pc.next);
  }

  /** Every step of the consumer in its call keeps to it. */
  lemma OwnStepInCall(cfg: Config, s: State, c: nat, action: ConsumerAction, call: Call, x0: Consumer, known: Known)
    returns (more: Known)
    requires Inv(cfg, s) && Enabled(cfg, s, ByConsumer(c, action)) && s.consumers[c].pc != Resting
    requires InCall(cfg.poller[c], call, x0, s.consumers[c], known)
    ensures Learns(cfg, s, c, x0.cursor, known, more)
    ensures InCall(cfg.poller[c], call, x0, ConsumerAfter(cfg, s, c, action), more)
  {
    more := known;
    match action {
      case ScanAvailability => more := ScanLearns(cfg, s, c, cfg.poller[c], call, x0);
      case LoadPublished => more := AnswerLearns(cfg, s, c, action, cfg.poller[c], call, x0);
      case CompleteMinimum => more := AnswerLearns(cfg, s, c, action, cfg.poller[c], call, x0);
      case Handle => HandleGives(cfg, s, c, cfg.poller[c], call, x0, known);
      case StoreCursor => StoreEnds(cfg, s, c, call, x0, known);
      case CheckShutdownFirst =>
        more := if s.shutdown == x0.cursor + 1 then ToldToStop else Nothing;
        ChecksFirst(cfg, s, c, cfg.poller[c], call, x0);
      case _ =>
    }
  }

  lemma ChecksFirst(cfg: Config, s: State, c: nat, poller: bool, call: Call, x0: Consumer)
    requires Enabled(cfg, s, ByConsumer(c, CheckShutdownFirst)) && InCall(poller, call, x0, s.consumers[c], Nothing)
    ensures InCall(poller, call, x0, ConsumerAfter(cfg, s, c, CheckShutdownFirst),
                   if s.shutdown == x0.cursor + 1 then ToldToStop else Nothing)
  {
  }

  /** What a call has come to by its end. */
  ghost predicate ComesTo(cfg: Config, s: State, steps: seq<Step>, c: nat, call: Call, x0: Consumer, known: Known)
    requires IsRun(cfg, s, steps) && c < |cfg.poller|
  {
    var t := After(cfg, s, steps);
    && c < |t.consumers|
    && (|| (IsUntouched(x0, t.consumers[c]) && (known == ToldToStop || EverShutdown(cfg, s, steps, x0.cursor + 1)))
        || exists answer :: (known == Heard(answer) || EverAnswers(cfg, s, steps, c, answer))
             && Result(cfg.poller[c], call, x0, t.consumers[c], answer))
  }

  predicate BeginsNone(steps: seq<Step>, c: nat) {
    forall i :: 0 <= i < |steps| ==> !Begins(steps[i], c)
  }

  lemma {:induction false} CallGoesOnTo(cfg: Config, s: State, steps: seq<Step>, c: nat, call: Call, x0: Consumer, known: Known)
    requires Inv(cfg, s) && IsRun(cfg, s, steps) && BeginsNone(steps, c) && c < |s.consumers| && c < |cfg.poller|
    requires InCall(cfg.poller[c], call, x0, s.consumers[c], known)
    requires c < |After(cfg, s, steps).consumers| && After(cfg, s, steps).consumers[c].pc == Resting
    ensures ComesTo(cfg, s, steps, c, call, x0, known)
    decreases |steps|
  {
    if steps != [] {
      var t := Apply(cfg, s, steps[0]);
      StepKeeps(cfg, s, steps[0]);
      RecordsChange(cfg, s, steps[0]);
      var more := known;
      if steps[0].ByConsumer? && steps[0].c == c {
        if s.consumers[c].pc == Resting {
          RestingBegins(cfg, s, c, steps[0].consumerAction);
          assert false;
        }
        more := OwnStepInCall(cfg, s, c, steps[0].consumerAction, call, x0, known);
      }
      CallGoesOnTo(cfg, t, steps[1..], c, call, x0, more);
      WhatIsLearntHappened(cfg, s, steps, c, call, x0, known, more);
    }
  }

  lemma WhatIsLearntHappened(cfg: Config, s: State, steps: seq<Step>, c: nat, call: Call, x0: Consumer, known: Known, more: Known)
    requires IsRun(cfg, s, steps) && steps != [] && c < |cfg.poller| && Learns(cfg, s, c, x0.cursor, known, more)
    requires ComesTo(cfg, Apply(cfg, s, steps[0]), steps[1..], c, call, x0, more)
    ensures ComesTo(cfg, s, steps, c, call, x0, known)
  {
    var t := Apply(cfg, s, steps[0]);
    if answer :| (more == Heard(answer) || EverAnswers(cfg, t, steps[1..], c, answer))
                 && Result(cfg.poller[c], call, x0, After(cfg, s, steps).consumers[c], answer)
    {
      assert known == Heard(answer) || EverAnswers(cfg, s, steps, c, answer);
    }
  }

  /** A whole call, from its beginning to its end, whatever everybody else does meanwhile. Either it found
      the shutdown sequence before asking its barrier, and nothing has changed. Or the barrier gave an
      answer, at some time during the call: with nothing to offer, nothing has changed; otherwise the cursor
      has moved to the answer, or to the poller's limit before it, and what was handed out are the
      sequences after the old cursor, one after another: to a processor all of them up to its new cursor. */
  lemma CallComesTo(cfg: Config, s: State, steps: seq<Step>, c: nat, call: Call)
    requires ValidConfig(cfg) && Reachable(cfg, s) && IsRun(cfg, s, steps)
    requires steps != [] && BeginsCall(steps[0], c, call) && BeginsNone(steps[1..], c)
    requires c < |s.consumers| && c < |cfg.poller|
    requires c < |After(cfg, s, steps).consumers| && After(cfg, s, steps).consumers[c].pc == Resting
    ensures var x0, x := s.consumers[c], After(cfg, s, steps).consumers[c];
            || (IsUntouched(x0, x) && EverShutdown(cfg, s, steps, x0.cursor + 1))
            || exists answer :: EverAnswers(cfg, s, steps, c, answer) && Result(cfg.poller[c], call, x0, x, answer)
  {
    ReachableIsSound(cfg, s);
    var t, x0 := Apply(cfg, s, steps[0]), s.consumers[c];
    StepKeeps(cfg, s, steps[0]);
    BeginIsInCall(cfg, s, steps[0], c, call);
    CallGoesOnTo(cfg, t, steps[1..], c, call, x0, Nothing);
    WhatIsLearntHappened(cfg, s, steps, c, call, x0, Nothing, Nothing);
  }

  lemma BeginIsInCall(cfg: Config, s: State, step: Step, c: nat, call: Call)
    requires Enabled(cfg, s, step) && BeginsCall(step, c, call)
    ensures c < |s.consumers| == |Apply(cfg, s, step).consumers| && c < |cfg.poller|
    ensures InCall(cfg.poller[c], call, s.consumers[c], Apply(cfg, s, step).consumers[c], Nothing)
  {
  }
}
